/**
 A PCI function handed back for good stays so: its mark is lifted by nothing
 but a step that selects it, and no resume or reconciliation hands it to a VM,
 unless a group mate's rule hands over the whole group.
 */
module PciSticky {
  import opened Prelude
  import opened World
  import opened UsbSpec
  import opened Frames
  import opened UsbRuns
  import opened ReconcileSpec
  import opened SuspendResume
  import opened PciRules
  import opened PciSpec
  import opened PciCommands
  import opened PciRuns
  import opened PciReconcile
  import Marks

  /** The function is marked, on disk too where state is kept there. */
  ghost predicate MarkedFor(cfg: Config, w: World, address: string) {
    && PciPersistentId(address) in w.persistent.disconnected
    && (cfg.persistency ==> PciPersistentId(address) in w.disk.disconnected)
  }

  /** The step does not select the function for an attach or a temporary
      detach; a suspend takes it only where it is on record. */
  ghost predicate Spares(cfg: Config, w: World, address: string, e: Event) {
    match e
    case AttachPci(_, x, _, _) => x.device.address != address
    case DetachPci(_, x, permanent, _) => x.device.address != address || permanent
    case SuspendsPci(_, functions, _, _) =>
      address in w.pciVms ==> forall i :: 0 <= i < |functions| ==> functions[i].device.address != address
    case DaemonRestarts => cfg.persistency
    case _ => true
  }

  lemma OtherIdsDiffer(a: string, b: string)
    requires a != b
    ensures PciPersistentId(a) != PciPersistentId(b)
  {
    assert PciPersistentId(a)[4..] == a && PciPersistentId(b)[4..] == b;
  }

  lemma OtherPciKeepsMark(cfg: Config, w: World, w': World, address: string, other: string)
    requires MarkedFor(cfg, w, address) && PciOnly(cfg, w, w', other) && other != address
    ensures MarkedFor(cfg, w', address)
  {
    OtherIdsDiffer(address, other);
    var id := PciPersistentId(other);
    assert PciPersistentId(address) in OtherMarks(w.persistent.disconnected, id);
    assert PciPersistentId(address) in OtherMarks(w'.persistent.disconnected, id);
  }

  lemma UsbKeepsMark(cfg: Config, w: World, w': World, address: string, d: UsbDevice)
    requires MarkedFor(cfg, w, address) && TouchesOnly(w, w', d)
    ensures MarkedFor(cfg, w', address)
  {
    UsbAndPciIdsDiffer(d, address);
    var id := PersistentId(d);
    assert PciPersistentId(address) in OtherMarks(w.persistent.disconnected, id);
    assert PciPersistentId(address) in OtherMarks(w'.persistent.disconnected, id);
    if w'.disk != w.disk {
      assert PciPersistentId(address) in OtherMarks(w'.disk.disconnected, id);
    }
  }

  /** A resume passes a marked function over, and its group mates lift no mark
      but their own. */
  lemma {:induction false} ResumePciKeepsMark(cfg: Config, groups: Groups, w: World, devices: seq<Routed>,
                                              scope: Option<string>, fs: string -> PciFaults, address: string)
    requires MarkedFor(cfg, w, address)
    ensures MarkedFor(cfg, ResumePci(cfg, groups, w, devices, scope, fs).0, address)
  {
    if devices != [] {
      var n := |devices| - 1;
      ResumePciKeepsMark(cfg, groups, w, devices[..n], scope, fs, address);
      var w1, x := ResumePci(cfg, groups, w, devices[..n], scope, fs).0, devices[n];
      if x.device.address != address {
        AttachPciFrame(cfg, groups, w1, x, Some(x.rule.targetVm), fs(x.device.address));
        var w2 := AttachOnePci(cfg, groups, w1, x, Some(x.rule.targetVm), fs(x.device.address)).0;
        OtherPciKeepsMark(cfg, w1, w2, address, x.device.address);
      }
    }
  }

  lemma {:induction false} SuspendPciKeepsMark(cfg: Config, groups: Groups, w: World, devices: seq<Routed>,
                                               scope: Option<string>, fs: string -> PciFaults, address: string)
    requires MarkedFor(cfg, w, address)
    requires address in w.pciVms ==> forall i :: 0 <= i < |devices| ==> devices[i].device.address != address
    ensures MarkedFor(cfg, SuspendPci(cfg, groups, w, devices, scope, fs).0, address)
  {
    if devices != [] {
      var n := |devices| - 1;
      SuspendPciKeepsMark(cfg, groups, w, devices[..n], scope, fs, address);
      SuspendPciStaysInScope(cfg, groups, w, devices[..n], scope, fs);
      var w1, x := SuspendPci(cfg, groups, w, devices[..n], scope, fs).0, devices[n];
      if x.device.address != address {
        DetachPciFrame(cfg, groups, w1, x, false, fs(x.device.address));
        var w2 := DetachOnePci(cfg, groups, w1, x, false, fs(x.device.address)).0;
        OtherPciKeepsMark(cfg, w1, w2, address, x.device.address);
      }
    }
  }

  lemma DetachAgainKeepsMark(cfg: Config, groups: Groups, w: World, x: Routed, f: PciFaults)
    requires MarkedFor(cfg, w, x.device.address)
    ensures MarkedFor(cfg, DetachOnePci(cfg, groups, w, x, true, f).0, x.device.address)
  {
    var vm := if x.device.address in w.pciVms then w.pciVms[x.device.address] else x.rule.targetVm;
    DetachPciEnds(cfg, groups, w, x, true, f);
    if vm in cfg.sockets && groups(x.device.address).Ok? {
      RemoveAllRemoves(w, cfg.sockets[vm], Given(groups, x), f.removes);
      var removed := Removed(w, cfg.sockets[vm], Given(groups, x), f.removes).0;
      MarkingKeepsMark(cfg, removed, x.device.address, vm, Given(groups, x), f);
    }
  }

  lemma MarkingKeepsMark(cfg: Config, w: World, address: string, vm: string, detach: seq<string>, f: PciFaults)
    requires MarkedFor(cfg, w, address)
    ensures MarkedFor(cfg, FinishDetachPci(cfg, w, address, vm, detach, true, f).0, address)
  {
    Marks.SetDisconnectedIsUpdate(w.persistent.disconnected, PciPersistentId(address), true);
  }

  // ----- runs -----

  lemma {:induction false} UsbPassKeepsMark(cfg: Config, w: World, devices: seq<RoutedUsb>, scope: Option<string>,
                                            fs: string -> AttachFaults, address: string)
    requires MarkedFor(cfg, w, address)
    ensures MarkedFor(cfg, ResumeUsb(cfg, w, devices, scope, fs).0, address)
  {
    if devices != [] {
      var n := |devices| - 1;
      UsbPassKeepsMark(cfg, w, devices[..n], scope, fs, address);
      var w1, x := ResumeUsb(cfg, w, devices[..n], scope, fs).0, devices[n];
      var w2 := ResumeOne(cfg, w1, x, scope, fs(x.device.sysName)).0;
      ResumeOneFrame(cfg, w1, x, scope, fs(x.device.sysName));
      UsbKeepsMark(cfg, w1, w2.(deferred := w1.deferred), address, x.device);
    }
  }

  lemma {:induction false} UsbSuspendKeepsMark(cfg: Config, w: World, devices: seq<RoutedUsb>, scope: Option<string>,
                                               fs: string -> DetachFaults, address: string)
    requires MarkedFor(cfg, w, address)
    ensures MarkedFor(cfg, SuspendUsb(cfg, w, devices, scope, fs).0, address)
  {
    if devices != [] {
      var n := |devices| - 1;
      UsbSuspendKeepsMark(cfg, w, devices[..n], scope, fs, address);
      var w1, x := SuspendUsb(cfg, w, devices[..n], scope, fs).0, devices[n];
      DetachFrame(cfg, w1, x.device, false, fs(x.device.sysName));
      UsbKeepsMark(cfg, w1, DetachOne(cfg, w1, x.device, false, fs(x.device.sysName)).0, address, x.device);
    }
  }

  lemma {:induction false} ForgetAllKeepsMark(cfg: Config, w: World, order: seq<string>,
                                              scanned: map<string, UsbDevice>, fs: string -> ForgetFaults,
                                              address: string)
    requires MarkedFor(cfg, w, address)
    ensures MarkedFor(cfg, ForgetAllGone(cfg, w, order, scanned, fs).0, address)
    decreases |order|
  {
    if order != [] {
      var key := order[0];
      if key in scanned || key !in w.observedUsb {
        ForgetAllKeepsMark(cfg, w, order[1..], scanned, fs, address);
      } else {
        var (w1, outcome) := ForgetGone(cfg, w, key, w.observedUsb[key], fs(key));
        ForgetGoneKeepsMark(cfg, w, key, w.observedUsb[key], fs(key), address);
        if outcome.Done? {
          ForgetAllKeepsMark(cfg, w1, order[1..], scanned, fs, address);
        }
      }
    }
  }

  lemma ForgetGoneKeepsMark(cfg: Config, w: World, key: string, d: UsbDevice, f: ForgetFaults, address: string)
    requires MarkedFor(cfg, w, address)
    ensures MarkedFor(cfg, ForgetGone(cfg, w, key, d, f).0, address)
  {
    if key in w.persistent.ports && w.persistent.ports[key].vm in cfg.sockets {
      DropPortFrame(cfg, w, w.persistent.ports[key], f);
      FinishForgetShape(cfg, DropPort(cfg, w, w.persistent.ports[key], f).0, key, d, f);
    } else {
      FinishForgetShape(cfg, w, key, d, f);
    }
  }

  lemma ReconcileKeepsMark(cfg: Config, w: World, p: Pass, pciOrder: seq<string>, address: string)
    requires MarkedFor(cfg, w, address)
    ensures MarkedFor(cfg, Reconciled(cfg, w, p, pciOrder).0, address)
  {
    var reset := w.(deferred := false);
    GatedIsGateOnly(cfg, reset, p.gate);
    var gated := Gated(cfg, reset, p.gate);
    ForgetAllKeepsMark(cfg, gated.(log := gated.log + Newcomers(gated.observedUsb, p.arrivals)), p.order,
                       ScanMap(p.usb), p.forget, address);
    var (observed, w1, w2) := Stages(cfg, w, p, pciOrder);
    ResumePciKeepsMark(cfg, p.groups, observed, p.pci, None, p.pciFaults, address);
    UsbPassKeepsMark(cfg, w1, p.usb, None, p.attach, address);
    SweptIsGateOnly(cfg, w2, p.sweepEnabled, p.sweep);
  }

  lemma NextKeepsMark(cfg: Config, w: World, e: Event, address: string)
    requires MarkedFor(cfg, w, address) && Spares(cfg, w, address, e)
    ensures MarkedFor(cfg, Next(cfg, w, e), address)
  {
    match e
    case Attach(d, rule, requested, f) =>
      AttachFrame(cfg, w, d, rule, requested, f);
      UsbKeepsMark(cfg, w, Next(cfg, w, e), address, d);
    case Detach(d, permanent, f) =>
      DetachFrame(cfg, w, d, permanent, f);
      UsbKeepsMark(cfg, w, Next(cfg, w, e), address, d);
    case Suspend(devices, scope, fs) => UsbSuspendKeepsMark(cfg, w, devices, scope, fs, address);
    case Resume(devices, scope, fs) => UsbPassKeepsMark(cfg, w, devices, scope, fs, address);
    case Observe(scanned, arrivals, order, fs) =>
      ForgetAllKeepsMark(cfg, w.(log := w.log + Newcomers(w.observedUsb, arrivals)), order, scanned, fs, address);
    case Reconciles(p, pciOrder) => ReconcileKeepsMark(cfg, w, p, pciOrder, address);
    case _ => PciEventKeepsMark(cfg, w, e, address);
  }

  lemma PciEventKeepsMark(cfg: Config, w: World, e: Event, address: string)
    requires MarkedFor(cfg, w, address) && Spares(cfg, w, address, e)
    requires Outside(e) || e.DaemonRestarts?
    ensures MarkedFor(cfg, Next(cfg, w, e), address)
  {
    match e
    case AttachPci(groups, x, requested, f) =>
      AttachPciFrame(cfg, groups, w, x, requested, f);
      OtherPciKeepsMark(cfg, w, Next(cfg, w, e), address, x.device.address);
    case ResumesPci(groups, devices, scope, fs) => ResumePciKeepsMark(cfg, groups, w, devices, scope, fs, address);
    case SuspendsPci(groups, devices, scope, fs) => SuspendPciKeepsMark(cfg, groups, w, devices, scope, fs, address);
    case DetachPci(groups, x, permanent, f) =>
      if x.device.address == address {
        DetachAgainKeepsMark(cfg, groups, w, x, f);
      } else {
        DetachPciFrame(cfg, groups, w, x, permanent, f);
        OtherPciKeepsMark(cfg, w, Next(cfg, w, e), address, x.device.address);
      }
    case _ =>
  }

  ghost predicate SparingRun(cfg: Config, w: World, address: string, events: seq<Event>) {
    forall i :: 0 <= i < |events| ==> Spares(cfg, Run(cfg, w, events[..i]), address, events[i])
  }

  lemma {:induction false} RunKeepsMark(cfg: Config, w: World, events: seq<Event>, address: string)
    requires MarkedFor(cfg, w, address) && SparingRun(cfg, w, address, events)
    ensures MarkedFor(cfg, Run(cfg, w, events), address)
  {
    if events != [] {
      var n := |events| - 1;
      forall i | 0 <= i < n ensures Spares(cfg, Run(cfg, w, events[..n][..i]), address, events[..n][i]) {
        assert events[..n][..i] == events[..i];
      }
      RunKeepsMark(cfg, w, events[..n], address);
      NextKeepsMark(cfg, Run(cfg, w, events[..n]), events[n], address);
    }
  }

  /** After a permanent detach that succeeds, no step but one that selects the
      function lifts its mark, over whole runs. */
  lemma PermanentPciDetachSticks(cfg: Config, groups: Groups, w: World, x: Routed, f: PciFaults, events: seq<Event>)
    requires DetachOnePci(cfg, groups, w, x, true, f).1.PciDone?
    requires SparingRun(cfg, DetachOnePci(cfg, groups, w, x, true, f).0, x.device.address, events)
    ensures var w' := Run(cfg, DetachOnePci(cfg, groups, w, x, true, f).0, events);
      PciPersistentId(x.device.address) in w'.persistent.disconnected
  {
    var vm := if x.device.address in w.pciVms then w.pciVms[x.device.address] else x.rule.targetVm;
    DetachPciSettles(cfg, groups, w, x, true, f, vm);
    RunKeepsMark(cfg, DetachOnePci(cfg, groups, w, x, true, f).0, events, x.device.address);
  }

  // ----- what a mark prevents -----

  /** Another function, itself unmarked, brings this one along: it is in the
      same group, and its rule hands over the group. */
  ghost predicate BroughtBy(groups: Groups, w: World, x: Routed, address: string) {
    && x.device.address != address && PciPersistentId(x.device.address) !in w.persistent.disconnected
    && groups(x.device.address).Ok? && Taken(groups, x, address)
  }

  /** A resume adds a marked function to no VM, unless another one brings it
      along. */
  lemma MarkedIsNotAdded(cfg: Config, groups: Groups, w: World, devices: seq<Routed>, scope: Option<string>,
                         fs: string -> PciFaults, address: string)
    requires PciPersistentId(address) in w.persistent.disconnected
    requires forall i :: 0 <= i < |devices| ==> !BroughtBy(groups, w, devices[i], address)
    ensures var log' := ResumePci(cfg, groups, w, devices, scope, fs).0.log;
      forall i :: |w.log| <= i < |log'| && log'[i].VfioAddCommand? ==> log'[i].address != address
  {
    ResumePciStaysInScope(cfg, groups, w, devices, scope, fs);
    var log' := ResumePci(cfg, groups, w, devices, scope, fs).0.log;
    forall i | |w.log| <= i < |log'| && log'[i].VfioAddCommand? ensures log'[i].address != address {
      assert InScopeAction(cfg, groups, w, devices, scope, log'[i]);
      var j :| 0 <= j < |devices| && AttachAction(cfg, groups, devices[j], log'[i]) && Due(w, devices[j], scope);
      assert !BroughtBy(groups, w, devices[j], address);
    }
  }

  /** And it does bring it along: once the other function is attached, the VM
      lists the marked one too. */
  lemma BroughtIsListed(cfg: Config, groups: Groups, w: World, x: Routed, f: PciFaults, address: string)
    requires BroughtBy(groups, w, x, address)
    requires AttachOnePci(cfg, groups, w, x, Some(x.rule.targetVm), f).1.PciDone?
    ensures var w' := AttachOnePci(cfg, groups, w, x, Some(x.rule.targetVm), f).0;
      && x.rule.targetVm in cfg.sockets
      && var guest := GuestAt(w', cfg.sockets[x.rule.targetVm]); guest.Live? && address in guest.vfio
    ensures var w' := AttachOnePci(cfg, groups, w, x, Some(x.rule.targetVm), f).0;
      PciPersistentId(address) in w.persistent.disconnected ==> PciPersistentId(address) in w'.persistent.disconnected
  {
    AttachPciSettles(cfg, groups, w, x, f);
    MarksStay(cfg, groups, w, x, f);
  }

  const MATES: seq<string> := ["x", "y"]
  const MATE: Routed := Routed(PciDevice("y"), PciMatch("a", false, true, false, false, 0))
  const MARKED_WORLD: World := World(
    Persistent(map[], [PciPersistentId("x")], map[]), DEFAULT_PERSISTENT, map[], map[], {}, map[], {}, {}, false,
    map[], map["sa" := Live(1, map[], {})], Host(map[], map[], map[]), [], [])
  const MATE_FAULTS: PciFaults := PciFaults(false, {}, _ => VfioConfirmed, _ => VfioConfirmed, false)

  /** A world in which a resume hands a marked function to a VM. */
  lemma GroupMateCanAddMarked()
    ensures var cfg, groups: Groups := Config(map["a" := "sa"], false, false, false), _ => Ok(MATES);
      var w' := ResumePci(cfg, groups, MARKED_WORLD, [MATE], None, _ => MATE_FAULTS).0;
      && PciPersistentId("x") in MARKED_WORLD.persistent.disconnected
      && "x" !in MARKED_WORLD.guests["sa"].vfio && GuestAt(w', "sa").Live? && "x" in GuestAt(w', "sa").vfio
  {
    var cfg, groups: Groups := Config(map["a" := "sa"], false, false, false), _ => Ok(MATES);
    var w, f := MARKED_WORLD, MATE_FAULTS;
    assert "x"[0] != "y"[0];
    OtherIdsDiffer("x", "y");
    MateIsAdded(w, f);
    assert [MATE][..0] == [];
    assert ResumePci(cfg, groups, w, [], None, _ => f) == (w, true);
    assert MATES[0] == "x";
    assert BroughtBy(groups, w, MATE, "x");
    BroughtIsListed(cfg, groups, w, MATE, f, "x");
  }

  lemma MateIsAdded(w: World, f: PciFaults)
    requires w == MARKED_WORLD && f == MATE_FAULTS
    ensures var cfg := Config(map["a" := "sa"], false, false, false);
      AttachOnePci(cfg, _ => Ok(MATES), w, MATE, Some("a"), f).1.PciDone?
  {
    assert "x"[0] != "y"[0];
    assert MATES[..|MATES| - 1] == ["x"] && ["x"][..0] == [];
    var (bound, ok) := BindAll(w, MATES, {});
    assert BindAll(w, ["x"], {}).1 by {
      assert BindAll(w, [], {}) == (w, true);
    }
    assert ok && bound.guests == w.guests;
    var (one, first) := AddAll(bound, "sa", ["x"], {}, f);
    assert AddAll(bound, "sa", [], {}, f) == (bound, true);
    assert first && GuestAt(one, "sa").Live? && "y" !in GuestAt(one, "sa").vfio;
    assert AddAll(bound, "sa", MATES, {}, f).1;
  }
}
