/**
 Exactly when a PCI attach and a PCI detach succeed, and when an attach
 announces itself.
 */
module PciOutcomes {
  import opened Prelude
  import opened World
  import opened PciRules
  import opened PciSpec
  import opened PciCommands
  import Marks
  import PciReconcile

  lemma {:induction false} BindAllEnds(w: World, addresses: seq<string>, fails: set<string>)
    ensures BindAll(w, addresses, fails).1 <==> forall a :: a in addresses ==> UnderVfio(w, a) || a !in fails
  {
    if addresses != [] {
      var front, last := addresses[..|addresses| - 1], addresses[|addresses| - 1];
      BindAllEnds(w, front, fails);
      BindAllBindsGiven(w, front, fails);
      BindAllBinds(w, front, fails);
      var (w1, ok) := BindAll(w, front, fails);
      assert addresses == front + [last];
      if ok && UnderVfio(w1, last) && !UnderVfio(w, last) {
        var j :| |w.log| <= j < |w1.log| && w1.log[j] == BindVfio(last);
        assert last in front;
      }
    }
  }

  /** What the VM lists while functions are being added. */
  lemma {:induction false} AddAllEnds(w: World, socket: string, addresses: seq<string>, f: PciFaults)
    requires GuestAt(w, socket).Live?
    ensures var live := GuestAt(w, socket).vfio;
      AddAll(w, socket, addresses, live, f).1 <==> forall a :: a in addresses && a !in live ==> f.adds(a).VfioConfirmed?
  {
    var live := GuestAt(w, socket).vfio;
    if addresses != [] {
      var front, last := addresses[..|addresses| - 1], addresses[|addresses| - 1];
      AddAllEnds(w, socket, front, f);
      PciReconcile.AddAllGrows(w, socket, front, live, f);
      AddAllGained(w, socket, front, live, f);
      assert addresses == front + [last];
    }
  }

  /** The VM gains nothing but what it is handed. */
  lemma {:induction false} AddAllGained(w: World, socket: string, addresses: seq<string>, live: set<string>,
                                        f: PciFaults)
    requires GuestAt(w, socket).Live?
    ensures var w1 := AddAll(w, socket, addresses, live, f).0;
      && GuestAt(w1, socket).Live?
      && (forall a :: a in GuestAt(w1, socket).vfio ==> a in GuestAt(w, socket).vfio || a in addresses)
      && (forall k :: k != socket ==> GuestAt(w1, k) == GuestAt(w, k))
  {
    if addresses != [] {
      var front, last := addresses[..|addresses| - 1], addresses[|addresses| - 1];
      AddAllGained(w, socket, front, live, f);
      assert addresses == front + [last];
    }
  }

  ghost function HowOften(log: seq<Action>, log': seq<Action>, action: Action): nat
    requires log <= log'
  {
    multiset(log'[|log|..])[action]
  }

  lemma OneMoreAction(log: seq<Action>, log': seq<Action>, action: Action)
    requires log <= log'
    ensures forall a :: HowOften(log, log' + [action], a) == HowOften(log, log', a) + if a == action then 1 else 0
  {
    assert (log' + [action])[|log|..] == log'[|log|..] + [action];
  }

  /** No function is asked for twice, even where a group lists it twice. */
  lemma {:induction false} AddsAtMostOnce(w: World, socket: string, addresses: seq<string>, live: set<string>,
                                          f: PciFaults)
    ensures var (w1, ok) := AddAll(w, socket, addresses, live, f);
      && w.log <= w1.log
      && forall a :: HowOften(w.log, w1.log, VfioAddCommand(socket, a)) <= 1
                     && (ok && HowOften(w.log, w1.log, VfioAddCommand(socket, a)) == 1 ==>
                           GuestAt(w1, socket).Live? && a in GuestAt(w1, socket).vfio)
  {
    if addresses != [] {
      var front, last := addresses[..|addresses| - 1], addresses[|addresses| - 1];
      AddsAtMostOnce(w, socket, front, live, f);
      OneMoreAction(w.log, AddAll(w, socket, front, live, f).0.log, VfioAddCommand(socket, last));
    }
  }

  /** Nor is one taken back twice. */
  lemma {:induction false} RemovesAtMostOnce(w: World, socket: string, addresses: seq<string>,
                                             outcomes: string -> VfioOutcome)
    ensures var (w1, ok) := RemoveAll(w, socket, addresses, outcomes);
      && w.log <= w1.log
      && forall a :: HowOften(w.log, w1.log, VfioRemoveCommand(socket, a)) <= 1
                     && (ok && HowOften(w.log, w1.log, VfioRemoveCommand(socket, a)) == 1 ==>
                           GuestAt(w1, socket).Live? && a !in GuestAt(w1, socket).vfio)
  {
    if addresses != [] {
      var front, last := addresses[..|addresses| - 1], addresses[|addresses| - 1];
      RemovesAtMostOnce(w, socket, front, outcomes);
      OneMoreAction(w.log, RemoveAll(w, socket, front, outcomes).0.log, VfioRemoveCommand(socket, last));
    }
  }

  /** A hotplug that took effect, whether or not it was confirmed. */
  ghost predicate TookEffect(outcome: VfioOutcome) {
    outcome.VfioConfirmed? || outcome.VfioLost?
  }

  /** Without a listing to go by nothing is added, and nothing is listed that no
      add brought about. */
  lemma {:induction false} AddsAsTold(w: World, socket: string, addresses: seq<string>, live: set<string>, f: PciFaults)
    requires GuestAt(w, socket).Live?
    ensures var w1 := AddAll(w, socket, addresses, live, f).0;
      && w.log <= w1.log && GuestAt(w1, socket).Live?
      && (forall i :: |w.log| <= i < |w1.log| ==>
            w1.log[i].VfioAddCommand? && !f.adds(w1.log[i].address).VfioUnlisted?)
      && (forall a :: a in GuestAt(w1, socket).vfio ==> a in GuestAt(w, socket).vfio || TookEffect(f.adds(a)))
  {
    if addresses != [] {
      var front, last := addresses[..|addresses| - 1], addresses[|addresses| - 1];
      AddsAsTold(w, socket, front, live, f);
      AddOneAsTold(AddAll(w, socket, front, live, f).0, socket, last, f.adds(last));
    }
  }

  lemma AddOneAsTold(w: World, socket: string, address: string, outcome: VfioOutcome)
    requires GuestAt(w, socket).Live?
    ensures var w1 := AddOne(w, socket, address, outcome).0;
      && (w1.log == w.log || (!outcome.VfioUnlisted? && w1.log == w.log + [VfioAddCommand(socket, address)]))
      && GuestAt(w1, socket).Live?
      && forall a :: a in GuestAt(w1, socket).vfio ==>
                       a in GuestAt(w, socket).vfio || (a == address && TookEffect(outcome))
  {
  }

  /** The same for removals. */
  lemma {:induction false} RemovesAsTold(w: World, socket: string, addresses: seq<string>,
                                         outcomes: string -> VfioOutcome)
    requires GuestAt(w, socket).Live?
    ensures var w1 := RemoveAll(w, socket, addresses, outcomes).0;
      && w.log <= w1.log && GuestAt(w1, socket).Live?
      && (forall i :: |w.log| <= i < |w1.log| ==>
            w1.log[i].VfioRemoveCommand? && !outcomes(w1.log[i].address).VfioUnlisted?)
      && (forall a :: a in GuestAt(w, socket).vfio ==> a in GuestAt(w1, socket).vfio || TookEffect(outcomes(a)))
  {
    if addresses != [] {
      var front, last := addresses[..|addresses| - 1], addresses[|addresses| - 1];
      RemovesAsTold(w, socket, front, outcomes);
      RemoveOneAsTold(RemoveAll(w, socket, front, outcomes).0, socket, last, outcomes(last));
    }
  }

  lemma RemoveOneAsTold(w: World, socket: string, address: string, outcome: VfioOutcome)
    requires GuestAt(w, socket).Live?
    ensures var w1 := RemoveOne(w, socket, address, outcome).0;
      && (w1.log == w.log || (!outcome.VfioUnlisted? && w1.log == w.log + [VfioRemoveCommand(socket, address)]))
      && GuestAt(w1, socket).Live?
      && forall a :: a in GuestAt(w, socket).vfio ==>
                       a in GuestAt(w1, socket).vfio || (a == address && TookEffect(outcome))
  {
  }

  /** Before anything is bound: the rule's VM is the one asked for and answers,
      and the function's group can be read and may be used. */
  ghost predicate Acceptable(cfg: Config, groups: Groups, w: World, x: Routed, requested: Option<string>, f: PciFaults)
  {
    && (requested == None || requested == Some(x.rule.targetVm))
    && x.rule.targetVm in cfg.sockets
    && GuestAt(w, cfg.sockets[x.rule.targetVm]).Live? && !f.listFails
    && groups(x.device.address).Ok?
    && (x.rule.iommuSkipIfShared ==> |groups(x.device.address).value| <= 1)
  }

  /** What the rule hands over is bound and taken. */
  ghost predicate HandsOver(cfg: Config, groups: Groups, w: World, x: Routed, f: PciFaults)
    requires x.rule.targetVm in cfg.sockets && groups(x.device.address).Ok?
             && GuestAt(w, cfg.sockets[x.rule.targetVm]).Live?
  {
    && (forall a :: InGroup(groups, x.device.address, a) ==> UnderVfio(w, a) || a !in f.bindFails)
    && (forall a :: Taken(groups, x, a) && a !in GuestAt(w, cfg.sockets[x.rule.targetVm]).vfio ==>
                      f.adds(a).VfioConfirmed?)
  }

  /** The VM does not list all that is handed over, or another holder is on record. */
  ghost predicate IsNews(cfg: Config, groups: Groups, w: World, x: Routed)
    requires x.rule.targetVm in cfg.sockets && groups(x.device.address).Ok?
             && GuestAt(w, cfg.sockets[x.rule.targetVm]).Live?
  {
    exists a :: Taken(groups, x, a) && (Get(w.pciVms, a) != Some(x.rule.targetVm)
                                        || a !in GuestAt(w, cfg.sockets[x.rule.targetVm]).vfio)
  }

  lemma HandOverEnds(cfg: Config, groups: Groups, w: World, x: Routed, f: PciFaults)
    requires x.rule.targetVm in cfg.sockets && groups(x.device.address).Ok?
    requires GuestAt(w, cfg.sockets[x.rule.targetVm]).Live?
    ensures var socket := cfg.sockets[x.rule.targetVm];
      var quarantine := Quarantine(groups(x.device.address).value, x.device.address);
      var (w1, error) := BindAndAdd(w, quarantine, Passthrough(x.rule, quarantine, x.device.address), socket,
                                    GuestAt(w, socket).vfio, f);
      && (error.None? <==> HandsOver(cfg, groups, w, x, f))
      && w1.pciVms == w.pciVms
      && AttachActions(cfg, groups, x, w.log, w1.log)
      && forall i :: |w.log| <= i < |w1.log| ==> !w1.log[i].PciAttached?
  {
    var address, socket := x.device.address, cfg.sockets[x.rule.targetVm];
    var quarantine := Quarantine(groups(address).value, address);
    var attach := Passthrough(x.rule, quarantine, address);
    assert forall a :: InGroup(groups, address, a) <==> a in quarantine;
    assert forall a :: Taken(groups, x, a) <==> a in attach;
    BindAndAddActs(cfg, groups, w, x, f);
    BindAllEnds(w, quarantine, f.bindFails);
    BindAllBinds(w, quarantine, f.bindFails);
    var bound := BindAll(w, quarantine, f.bindFails).0;
    AddAllEnds(bound, socket, attach, f);
    AddAllAdds(bound, socket, attach, GuestAt(w, socket).vfio, f);
    var added := BindAndAdd(w, quarantine, attach, socket, GuestAt(w, socket).vfio, f).0;
    forall i | |w.log| <= i < |added.log| ensures !added.log[i].PciAttached? {
      assert i < |bound.log| ==> added.log[..|bound.log|][i] == bound.log[i];
    }
  }

  /** A PCI attach succeeds if and only if it is acceptable, every member of the
      group is bound to vfio-pci or can be, the VM confirms whatever it does
      not list yet, and the state can be saved. Then it is announced if and
      only if the VM did not list all of it, or somebody else was on record. */
  lemma AttachPciSucceedsIff(cfg: Config, groups: Groups, w: World, x: Routed, requested: Option<string>, f: PciFaults)
    ensures var (w', result) := AttachOnePci(cfg, groups, w, x, requested, f);
      && (result.PciDone? <==>
            && Acceptable(cfg, groups, w, x, requested, f) && HandsOver(cfg, groups, w, x, f)
            && (cfg.persistency ==> !f.saveFails))
      && w.log <= w'.log
      && (result.PciDone? ==>
            (PciAttached(x.device.address, x.rule.targetVm) in w'.log[|w.log|..] <==> IsNews(cfg, groups, w, x)))
      && (result.PciFailed? ==> forall a :: a in w'.log[|w.log|..] ==> !a.PciAttached?)
  {
    AttachPciActs(cfg, groups, w, x, requested, f);
    if Acceptable(cfg, groups, w, x, requested, f) {
      HandOverEnds(cfg, groups, w, x, f);
      AcceptedStages(cfg, groups, w, x, requested, f);
      var quarantine := Quarantine(groups(x.device.address).value, x.device.address);
      var socket := cfg.sockets[x.rule.targetVm];
      var (added, error) := BindAndAdd(w, quarantine, Passthrough(x.rule, quarantine, x.device.address), socket,
                                       GuestAt(w, socket).vfio, f);
      if error.None? {
        FinishTells(cfg, groups, w, added, x, f);
      } else {
        MembersQuiet(w.log, added.log);
      }
    }
  }

  lemma MembersQuiet(log: seq<Action>, log': seq<Action>)
    requires log <= log' && forall i :: |log| <= i < |log'| ==> !log'[i].PciAttached?
    ensures forall a :: a in log'[|log|..] ==> !a.PciAttached?
  {
    assert forall i :: 0 <= i < |log'[|log|..]| ==> log'[|log|..][i] == log'[|log| + i];
  }

  /** An acceptable attach binds, adds and records, and stops where one fails. */
  lemma AcceptedStages(cfg: Config, groups: Groups, w: World, x: Routed, requested: Option<string>, f: PciFaults)
    requires Acceptable(cfg, groups, w, x, requested, f)
    ensures var address, vm := x.device.address, x.rule.targetVm;
      var quarantine := Quarantine(groups(address).value, address);
      var attach := Passthrough(x.rule, quarantine, address);
      var socket := cfg.sockets[vm];
      var (added, error) := BindAndAdd(w, quarantine, attach, socket, GuestAt(w, socket).vfio, f);
      AttachOnePci(cfg, groups, w, x, requested, f) ==
        if error.Some? then (added, PciFailed(error.value))
        else FinishAttachPci(cfg, added, address, vm, attach, IsNews(cfg, groups, w, x), f)
  {
    var address, vm := x.device.address, x.rule.targetVm;
    var attach := Passthrough(x.rule, Quarantine(groups(address).value, address), address);
    assert forall a :: Taken(groups, x, a) <==> a in attach;
    var live := GuestAt(w, cfg.sockets[vm]).vfio;
    assert Unrecorded(w.pciVms, attach, vm) <==> exists a :: a in attach && Get(w.pciVms, a) != Some(vm) by {
      if a :| a in attach && Get(w.pciVms, a) != Some(vm) {
        var i :| 0 <= i < |attach| && attach[i] == a;
      }
    }
    assert IsNews(cfg, groups, w, x) <==> (Unrecorded(w.pciVms, attach, vm) || exists a :: a in attach && a !in live);
  }

  lemma FinishTells(cfg: Config, groups: Groups, w: World, added: World, x: Routed, f: PciFaults)
    requires x.rule.targetVm in cfg.sockets && groups(x.device.address).Ok?
    requires GuestAt(w, cfg.sockets[x.rule.targetVm]).Live?
    requires w.log <= added.log && forall i :: |w.log| <= i < |added.log| ==> !added.log[i].PciAttached?
    ensures var news := IsNews(cfg, groups, w, x);
      var attach := Passthrough(x.rule, Quarantine(groups(x.device.address).value, x.device.address), x.device.address);
      var (w', result) := FinishAttachPci(cfg, added, x.device.address, x.rule.targetVm, attach, news, f);
      && (result.PciDone? <==> (cfg.persistency ==> !f.saveFails))
      && w.log <= w'.log
      && (result.PciDone? ==>
            (PciAttached(x.device.address, x.rule.targetVm) in w'.log[|w.log|..] <==> news))
      && (result.PciFailed? ==> forall a :: a in w'.log[|w.log|..] ==> !a.PciAttached?)
  {
    MembersQuiet(w.log, added.log);
    var tail := [PciAttached(x.device.address, x.rule.targetVm)];
    assert (added.log + tail)[|w.log|..] == added.log[|w.log|..] + tail;
  }

  /** The records after an attach: the VM holds what was handed over, and the
      function is not marked; on disk too, if the save succeeded. */
  ghost predicate RecordsMade(cfg: Config, w: World, w': World, groups: Groups, x: Routed, f: PciFaults)
    requires groups(x.device.address).Ok?
  {
    var id := PciPersistentId(x.device.address);
    && (forall a :: Get(w'.pciVms, a) == if Taken(groups, x, a) then Some(x.rule.targetVm) else Get(w.pciVms, a))
    && id !in w'.persistent.disconnected
    && (forall i :: i != id ==> (i in w'.persistent.disconnected <==> i in w.persistent.disconnected))
    && w'.disk == if cfg.persistency && !f.saveFails then w'.persistent else w.disk
  }

  /** An attach whose functions were handed over writes its records, whether or
      not it can save them. */
  lemma AttachPciRecords(cfg: Config, groups: Groups, w: World, x: Routed, requested: Option<string>, f: PciFaults)
    requires Acceptable(cfg, groups, w, x, requested, f) && HandsOver(cfg, groups, w, x, f)
    ensures var (w', result) := AttachOnePci(cfg, groups, w, x, requested, f);
      && RecordsMade(cfg, w, w', groups, x, f)
      && result == if cfg.persistency && f.saveFails then PciFailed(SaveFailed) else PciDone
  {
    var address, vm := x.device.address, x.rule.targetVm;
    var quarantine := Quarantine(groups(address).value, address);
    var attach := Passthrough(x.rule, quarantine, address);
    HandOverEnds(cfg, groups, w, x, f);
    AcceptedStages(cfg, groups, w, x, requested, f);
    QuietRecords(w, quarantine, attach, cfg.sockets[vm], GuestAt(w, cfg.sockets[vm]).vfio, f);
    var added := BindAndAdd(w, quarantine, attach, cfg.sockets[vm], GuestAt(w, cfg.sockets[vm]).vfio, f).0;
    FinishMakesRecords(cfg, added, groups, x, attach, IsNews(cfg, groups, w, x), f);
  }

  lemma QuietRecords(w: World, quarantine: seq<string>, attach: seq<string>, socket: string, live: set<string>,
                     f: PciFaults)
    ensures var w1 := BindAndAdd(w, quarantine, attach, socket, live, f).0;
      w1.persistent == w.persistent && w1.disk == w.disk && w1.pciVms == w.pciVms
  {
    BindAllBinds(w, quarantine, f.bindFails);
    AddAllAdds(BindAll(w, quarantine, f.bindFails).0, socket, attach, live, f);
  }

  lemma FinishMakesRecords(cfg: Config, w: World, groups: Groups, x: Routed, attach: seq<string>, changed: bool,
                           f: PciFaults)
    requires groups(x.device.address).Ok? && forall a :: Taken(groups, x, a) <==> a in attach
    ensures var (w', result) := FinishAttachPci(cfg, w, x.device.address, x.rule.targetVm, attach, changed, f);
      && RecordsMade(cfg, w, w', groups, x, f)
      && result == if cfg.persistency && f.saveFails then PciFailed(SaveFailed) else PciDone
  {
    PciReconcile.RecordAllRecords(w.pciVms, attach, x.rule.targetVm);
    Marks.SetDisconnectedIsUpdate(w.persistent.disconnected, PciPersistentId(x.device.address), false);
  }

  // ----- detaching -----

  /** The VM gives the function back: it says what it lists, and confirms the
      removal if it lists the function. */
  ghost predicate Yields(guest: Guest, a: string, outcome: VfioOutcome)
    requires guest.Live?
  {
    !outcome.VfioUnlisted? && (a in guest.vfio ==> outcome.VfioConfirmed?)
  }

  lemma RemoveOneEnds(w: World, socket: string, address: string, outcome: VfioOutcome)
    ensures RemoveOne(w, socket, address, outcome).1 <==>
              GuestAt(w, socket).Live? && Yields(GuestAt(w, socket), address, outcome)
  {
  }

  lemma {:induction false} RemoveAllEnds(w: World, socket: string, addresses: seq<string>,
                                         outcomes: string -> VfioOutcome)
    requires addresses != [] || GuestAt(w, socket).Live?
    ensures var guest := GuestAt(w, socket);
      RemoveAll(w, socket, addresses, outcomes).1 <==>
        guest.Live? && forall a :: a in addresses ==> Yields(guest, a, outcomes(a))
  {
    if addresses != [] {
      var front, last := addresses[..|addresses| - 1], addresses[|addresses| - 1];
      assert addresses == front + [last];
      var (w0, ok) := RemoveAll(w, socket, front, outcomes);
      RemoveAllRemoves(w, socket, front, outcomes);
      RemoveOneEnds(w0, socket, last, outcomes(last));
      if front != [] {
        RemoveAllEnds(w, socket, front, outcomes);
        if GuestAt(w, socket).Live? {
          RemovedBefore(w, w0, socket, front, last, outcomes);
        }
      } else {
        assert RemoveAll(w, socket, front, outcomes) == (w, true);
      }
    }
  }

  /** Where the others were given back, the last one is as it was, or is one of them. */
  lemma RemovedBefore(w: World, w0: World, socket: string, front: seq<string>, last: string,
                      outcomes: string -> VfioOutcome)
    requires Removes(w, w0, socket, front) && GuestAt(w, socket).Live?
    ensures GuestAt(w0, socket).Live?
    ensures (forall a :: a in front ==>
                           a !in GuestAt(w0, socket).vfio && Yields(GuestAt(w, socket), a, outcomes(a))) ==>
              (Yields(GuestAt(w0, socket), last, outcomes(last)) <==>
               Yields(GuestAt(w, socket), last, outcomes(last)))
  {
  }

  /** A PCI detach succeeds if and only if the VM the function is taken from is
      configured, the function's group can be read, that VM is gone or confirms
      the removal of what it lists of it, and the state can be saved. A detach
      that fails for another reason forgets nothing. */
  lemma DetachPciSucceedsIff(cfg: Config, groups: Groups, w: World, x: Routed, permanent: bool, f: PciFaults,
                             vm: string)
    requires TakenFrom(w, x, vm)
    ensures var (w', result) := DetachOnePci(cfg, groups, w, x, permanent, f);
      && (result.PciDone? <==>
            && vm in cfg.sockets && groups(x.device.address).Ok? && GivesBack(cfg, groups, w, x, f, vm)
            && (cfg.persistency ==> !f.saveFails))
      && (result.PciFailed? && result.error != SaveFailed ==>
            w'.pciVms == w.pciVms && w'.persistent == w.persistent && w'.disk == w.disk)
  {
    if vm in cfg.sockets && groups(x.device.address).Ok? {
      RemovalEnds(cfg, groups, w, x, f, vm);
      var (removed, ok) := Removed(w, cfg.sockets[vm], Given(groups, x), f.removes);
      DetachPciStages(cfg, groups, w, x, permanent, f, vm, removed, ok);
    }
  }

  lemma RemovalEnds(cfg: Config, groups: Groups, w: World, x: Routed, f: PciFaults, vm: string)
    requires vm in cfg.sockets && groups(x.device.address).Ok?
    ensures var (removed, ok) := Removed(w, cfg.sockets[vm], Given(groups, x), f.removes);
      && (ok <==> GivesBack(cfg, groups, w, x, f, vm))
      && removed.pciVms == w.pciVms && removed.persistent == w.persistent && removed.disk == w.disk
  {
    var socket := cfg.sockets[vm];
    assert forall a :: Taken(groups, x, a) <==> a in Given(groups, x);
    RemoveAllEnds(w, socket, Given(groups, x), f.removes);
    RemoveAllRemoves(w, socket, Given(groups, x), f.removes);
  }

  ghost predicate GivesBack(cfg: Config, groups: Groups, w: World, x: Routed, f: PciFaults, vm: string)
    requires vm in cfg.sockets && groups(x.device.address).Ok?
  {
    var guest := GuestAt(w, cfg.sockets[vm]);
    guest.NoSocket? ||
    (guest.Live? && forall a :: Taken(groups, x, a) ==> Yields(guest, a, f.removes(a)))
  }
}
