/**
 What PCI operations do to VMs: which functions they add to and remove from
 which, what a detach leaves behind, and what a mark prevents.
 */
module PciCommands {
  import opened Prelude
  import opened World
  import opened PciRules
  import opened PciSpec
  import Marks

  /** What a rule hands over for a function: its whole IOMMU group, if the rule
      asks for that and there is one, and otherwise the function alone. */
  ghost predicate Taken(groups: Groups, x: Routed, a: string)
    requires groups(x.device.address).Ok?
  {
    var group := groups(x.device.address).value;
    if x.rule.iommuAddAll && group != [] then a in group else a == x.device.address
  }

  /** The function's group, which is the function alone where it has none. */
  ghost predicate InGroup(groups: Groups, address: string, a: string)
    requires groups(address).Ok?
  {
    if groups(address).value != [] then a in groups(address).value else a == address
  }

  // ----- the commands of one operation -----

  /** An action of an attach of this function: its group is bound, what the
      rule hands over is added to the rule's VM, and that is announced. */
  ghost predicate AttachAction(cfg: Config, groups: Groups, x: Routed, action: Action) {
    groups(x.device.address).Ok? &&
    match action
    case BindVfio(a) => InGroup(groups, x.device.address, a)
    case VfioAddCommand(socket, a) => Get(cfg.sockets, x.rule.targetVm) == Some(socket) && Taken(groups, x, a)
    case PciAttached(address, vm) => address == x.device.address && vm == x.rule.targetVm
    case _ => false
  }

  /** An action of a detach of this function from this VM. */
  ghost predicate DetachAction(cfg: Config, groups: Groups, x: Routed, vm: string, action: Action) {
    groups(x.device.address).Ok? &&
    match action
    case VfioRemoveCommand(socket, a) => Get(cfg.sockets, vm) == Some(socket) && Taken(groups, x, a)
    case PciDetached(address, from) => address == x.device.address && from == vm
    case _ => false
  }

  ghost predicate AttachActions(cfg: Config, groups: Groups, x: Routed, log: seq<Action>, log': seq<Action>) {
    log <= log' && forall i :: |log| <= i < |log'| ==> AttachAction(cfg, groups, x, log'[i])
  }

  ghost predicate DetachActions(cfg: Config, groups: Groups, x: Routed, vm: string, log: seq<Action>,
                                log': seq<Action>)
  {
    log <= log' && forall i :: |log| <= i < |log'| ==> DetachAction(cfg, groups, x, vm, log'[i])
  }

  lemma {:induction false} BindAllBindsGiven(w: World, addresses: seq<string>, fails: set<string>)
    ensures var w1 := BindAll(w, addresses, fails).0;
      w.log <= w1.log && forall i :: |w.log| <= i < |w1.log| ==> w1.log[i].BindVfio? && w1.log[i].address in addresses
  {
    if addresses != [] {
      var n := |addresses| - 1;
      BindAllBindsGiven(w, addresses[..n], fails);
      assert addresses == addresses[..n] + [addresses[n]];
    }
  }

  lemma {:induction false} AddAllAddsTo(w: World, socket: string, addresses: seq<string>, live: set<string>,
                                        f: PciFaults)
    ensures var w1 := AddAll(w, socket, addresses, live, f).0;
      && w.log <= w1.log
      && forall i :: |w.log| <= i < |w1.log| ==>
           w1.log[i].VfioAddCommand? && w1.log[i].socket == socket && w1.log[i].address in addresses
           && w1.log[i].address !in live
  {
    if addresses != [] {
      var n := |addresses| - 1;
      AddAllAddsTo(w, socket, addresses[..n], live, f);
      assert addresses == addresses[..n] + [addresses[n]];
    }
  }

  lemma BindAndAddActs(cfg: Config, groups: Groups, w: World, x: Routed, f: PciFaults)
    requires x.rule.targetVm in cfg.sockets && groups(x.device.address).Ok?
    ensures var address, socket := x.device.address, cfg.sockets[x.rule.targetVm];
      var quarantine := Quarantine(groups(address).value, address);
      var live := GuestAt(w, socket).Live?;
      live ==> AttachActions(cfg, groups, x, w.log,
        BindAndAdd(w, quarantine, Passthrough(x.rule, quarantine, address), socket, GuestAt(w, socket).vfio, f).0.log)
  {
    var address, socket := x.device.address, cfg.sockets[x.rule.targetVm];
    var quarantine := Quarantine(groups(address).value, address);
    if GuestAt(w, socket).Live? {
      BindAllBindsGiven(w, quarantine, f.bindFails);
      var bound := BindAll(w, quarantine, f.bindFails).0;
      AddAllAddsTo(bound, socket, Passthrough(x.rule, quarantine, address), GuestAt(w, socket).vfio, f);
      var added := BindAndAdd(w, quarantine, Passthrough(x.rule, quarantine, address), socket,
                              GuestAt(w, socket).vfio, f).0;
      forall i | |w.log| <= i < |added.log| ensures AttachAction(cfg, groups, x, added.log[i]) {
        if i < |bound.log| {
          assert added.log[i] == bound.log[i];
        }
      }
    }
  }

  /** An attach binds the function's group and adds what the rule hands over to
      the rule's VM; it does nothing else, whatever fails. */
  lemma AttachPciActs(cfg: Config, groups: Groups, w: World, x: Routed, requested: Option<string>, f: PciFaults)
    ensures AttachActions(cfg, groups, x, w.log, AttachOnePci(cfg, groups, w, x, requested, f).0.log)
  {
    var address, vm := x.device.address, x.rule.targetVm;
    if vm in cfg.sockets && groups(address).Ok? && GuestAt(w, cfg.sockets[vm]).Live? {
      var changed := AttachPciEnds(cfg, groups, w, x, requested, f);
      var quarantine, socket := Quarantine(groups(address).value, address), cfg.sockets[vm];
      var attach := Passthrough(x.rule, quarantine, address);
      var added := BindAndAdd(w, quarantine, attach, socket, GuestAt(w, socket).vfio, f).0;
      BindAndAddActs(cfg, groups, w, x, f);
      FinishAttachActs(cfg, groups, w, added, x, attach, changed, f);
    }
  }

  lemma FinishAttachActs(cfg: Config, groups: Groups, w: World, added: World, x: Routed, attach: seq<string>,
                         changed: bool, f: PciFaults)
    requires groups(x.device.address).Ok? && AttachActions(cfg, groups, x, w.log, added.log)
    ensures AttachActions(cfg, groups, x, w.log,
                          FinishAttachPci(cfg, added, x.device.address, x.rule.targetVm, attach, changed, f).0.log)
  {
    var w' := FinishAttachPci(cfg, added, x.device.address, x.rule.targetVm, attach, changed, f).0;
    assert w'.log == added.log || w'.log == added.log + [PciAttached(x.device.address, x.rule.targetVm)];
    forall i | |w.log| <= i < |w'.log| ensures AttachAction(cfg, groups, x, w'.log[i]) {
      if i < |added.log| {
        assert w'.log[i] == added.log[i];
      }
    }
  }

  /** A VM other than the rule's is refused, and so is a function whose group
      is shared where the rule says so; then nothing changes. */
  lemma AttachPciRefuses(cfg: Config, groups: Groups, w: World, x: Routed, requested: Option<string>, f: PciFaults)
    ensures requested.Some? && requested.value != x.rule.targetVm ==>
              AttachOnePci(cfg, groups, w, x, requested, f) == (w, PciFailed(NotAllowed))
    ensures x.rule.iommuSkipIfShared && groups(x.device.address).Ok? && |groups(x.device.address).value| > 1 ==>
              var (w', result) := AttachOnePci(cfg, groups, w, x, requested, f); w' == w && result.PciFailed?
    ensures groups(x.device.address).Err? ==>
              var (w', result) := AttachOnePci(cfg, groups, w, x, requested, f); w' == w && result.PciFailed?
  {
  }

  // ----- what a detach leaves -----

  /** The VM a function is taken from: the one on record, else the rule's. */
  ghost predicate TakenFrom(w: World, x: Routed, vm: string) {
    if x.device.address in w.pciVms then w.pciVms[x.device.address] == vm else x.rule.targetVm == vm
  }

  /** The functions among these are taken from the VM behind the socket, and
      nothing else happens to any VM. */
  ghost predicate Removes(w: World, w': World, socket: string, addresses: seq<string>) {
    && w' == w.(guests := w'.guests, log := w'.log) && w.log <= w'.log
    && (forall i :: |w.log| <= i < |w'.log| ==>
          w'.log[i].VfioRemoveCommand? && w'.log[i].socket == socket && w'.log[i].address in addresses)
    && (forall k :: k != socket ==> GuestAt(w', k) == GuestAt(w, k))
    && (if GuestAt(w, socket).Live? then
          && GuestAt(w', socket).Live?
          && (forall a :: a in GuestAt(w', socket).vfio ==> a in GuestAt(w, socket).vfio)
          && (forall a :: a in GuestAt(w, socket).vfio && a !in addresses ==> a in GuestAt(w', socket).vfio)
        else w' == w)
  }

  lemma RemoveOneRemoves(w: World, socket: string, address: string, outcome: VfioOutcome)
    ensures var (w1, ok) := RemoveOne(w, socket, address, outcome);
      && Removes(w, w1, socket, [address])
      && (ok ==> GuestAt(w1, socket).Live? && address !in GuestAt(w1, socket).vfio)
  {
  }

  lemma RemovesTransitive(w: World, w1: World, w2: World, socket: string, front: seq<string>, last: string)
    requires Removes(w, w1, socket, front) && Removes(w1, w2, socket, [last])
    ensures Removes(w, w2, socket, front + [last])
  {
    forall i | |w.log| <= i < |w2.log|
      ensures w2.log[i].VfioRemoveCommand? && w2.log[i].socket == socket && w2.log[i].address in front + [last]
    {
      if i < |w1.log| {
        assert w2.log[i] == w1.log[i];
      }
    }
  }

  lemma {:induction false} RemoveAllRemoves(w: World, socket: string, addresses: seq<string>,
                                            outcomes: string -> VfioOutcome)
    ensures var (w1, ok) := RemoveAll(w, socket, addresses, outcomes);
      && Removes(w, w1, socket, addresses)
      && (ok && addresses != [] ==>
            GuestAt(w1, socket).Live? && forall a :: a in addresses ==> a !in GuestAt(w1, socket).vfio)
  {
    if addresses != [] {
      var front, last := addresses[..|addresses| - 1], addresses[|addresses| - 1];
      RemoveAllRemoves(w, socket, front, outcomes);
      var (w0, ok0) := RemoveAll(w, socket, front, outcomes);
      assert addresses == front + [last];
      RemoveOneRemoves(w0, socket, last, outcomes(last));
      RemovesTransitive(w, w0, RemoveOne(w0, socket, last, outcomes(last)).0, socket, front, last);
      assert Removes(w, w0, socket, addresses);
    }
  }

  function Given(groups: Groups, x: Routed): seq<string>
    requires groups(x.device.address).Ok?
  {
    if x.rule.iommuAddAll then Quarantine(groups(x.device.address).value, x.device.address) else [x.device.address]
  }

  /** The operation went well, up to the save. */
  ghost predicate GetsToRecords(result: PciResult) {
    result.PciDone? || result.error == SaveFailed
  }

  /** How a detach that gets to its records got there. */
  lemma DetachPciDone(cfg: Config, groups: Groups, w: World, x: Routed, permanent: bool, f: PciFaults, vm: string)
    requires TakenFrom(w, x, vm) && GetsToRecords(DetachOnePci(cfg, groups, w, x, permanent, f).1)
    ensures groups(x.device.address).Ok? && vm in cfg.sockets
    ensures var (removed, ok) := Removed(w, cfg.sockets[vm], Given(groups, x), f.removes);
      ok && DetachOnePci(cfg, groups, w, x, permanent, f).0 ==
            FinishDetachPci(cfg, removed, x.device.address, vm, Given(groups, x), permanent, f).0
  {
  }

  /** The VM after a detach from it, unless it is gone: it lists nothing of
      what was taken, and everything else as before. */
  ghost predicate TakenAway(w: World, w': World, socket: string, groups: Groups, x: Routed)
    requires groups(x.device.address).Ok?
  {
    if GuestAt(w, socket).NoSocket? then w'.guests == w.guests
    else
      && GuestAt(w, socket).Live? && GuestAt(w', socket).Live?
      && (forall a :: Taken(groups, x, a) ==> a !in GuestAt(w', socket).vfio)
      && (forall a :: !Taken(groups, x, a) ==> (a in GuestAt(w', socket).vfio <==> a in GuestAt(w, socket).vfio))
      && (forall k :: k != socket ==> GuestAt(w', k) == GuestAt(w, k))
  }

  lemma RemovedTakesAway(w: World, socket: string, groups: Groups, x: Routed, f: PciFaults)
    requires groups(x.device.address).Ok? && Removed(w, socket, Given(groups, x), f.removes).1
    ensures var w' := Removed(w, socket, Given(groups, x), f.removes).0;
      TakenAway(w, w', socket, groups, x) && Removes(w, w', socket, Given(groups, x))
  {
    RemoveAllRemoves(w, socket, Given(groups, x), f.removes);
    assert forall a :: Taken(groups, x, a) <==> a in Given(groups, x);
  }

  /** The records after a detach: the mark is as asked, and what was taken is
      on record no more; on disk too, if the save succeeded. */
  ghost predicate RecordsGone(cfg: Config, w: World, w': World, groups: Groups, x: Routed, permanent: bool,
                              f: PciFaults)
    requires groups(x.device.address).Ok?
  {
    && (PciPersistentId(x.device.address) in w'.persistent.disconnected <==> permanent)
    && (forall id :: id != PciPersistentId(x.device.address) ==>
          (id in w'.persistent.disconnected <==> id in w.persistent.disconnected))
    && w'.disk == (if cfg.persistency && !f.saveFails then w'.persistent else w.disk)
    && (forall a :: Taken(groups, x, a) ==> a !in w'.pciVms)
    && (forall a :: !Taken(groups, x, a) ==> Get(w'.pciVms, a) == Get(w.pciVms, a))
  }

  lemma FinishDropsRecords(cfg: Config, w: World, groups: Groups, x: Routed, vm: string, permanent: bool,
                           f: PciFaults)
    requires groups(x.device.address).Ok?
    ensures var w' := FinishDetachPci(cfg, w, x.device.address, vm, Given(groups, x), permanent, f).0;
      && RecordsGone(cfg, w, w', groups, x, permanent, f)
      && w'.guests == w.guests && w'.log == w.log + [PciDetached(x.device.address, vm)]
  {
    Marks.SetDisconnectedIsUpdate(w.persistent.disconnected, PciPersistentId(x.device.address), permanent);
    FinishDetachPciFields(cfg, w, x.device.address, vm, Given(groups, x), permanent, f);
    GivenIsForgotten(w.pciVms, groups, x);
  }

  lemma GivenIsForgotten(pciVms: map<string, string>, groups: Groups, x: Routed)
    requires groups(x.device.address).Ok?
    ensures forall a :: Get(ForgetAll(pciVms, Given(groups, x)), a) ==
                        if Taken(groups, x, a) then None else Get(pciVms, a)
  {
    assert forall a :: Taken(groups, x, a) <==> a in Given(groups, x);
  }

  /** A detach that gets to its records sets the mark if and only if it is
      permanent, takes the functions off the records, and their VM, unless it
      is gone, lists none of them any more. Nothing else changes. */
  lemma DetachPciSettles(cfg: Config, groups: Groups, w: World, x: Routed, permanent: bool, f: PciFaults, vm: string)
    requires TakenFrom(w, x, vm) && GetsToRecords(DetachOnePci(cfg, groups, w, x, permanent, f).1)
    ensures groups(x.device.address).Ok? && vm in cfg.sockets
    ensures var w' := DetachOnePci(cfg, groups, w, x, permanent, f).0;
      && RecordsGone(cfg, w, w', groups, x, permanent, f)
      && TakenAway(w, w', cfg.sockets[vm], groups, x)
      && DetachActions(cfg, groups, x, vm, w.log, w'.log)
      && w'.log[|w'.log| - 1] == PciDetached(x.device.address, vm)
  {
    DetachPciDone(cfg, groups, w, x, permanent, f, vm);
    var removed := Removed(w, cfg.sockets[vm], Given(groups, x), f.removes).0;
    RemovedTakesAway(w, cfg.sockets[vm], groups, x, f);
    FinishDropsRecords(cfg, removed, groups, x, vm, permanent, f);
    RemovalActs(cfg, groups, w, removed, x, vm);
  }

  lemma RemovalActs(cfg: Config, groups: Groups, w: World, removed: World, x: Routed, vm: string)
    requires groups(x.device.address).Ok? && vm in cfg.sockets
    requires Removes(w, removed, cfg.sockets[vm], Given(groups, x))
    ensures DetachActions(cfg, groups, x, vm, w.log, removed.log)
    ensures DetachActions(cfg, groups, x, vm, w.log, removed.log + [PciDetached(x.device.address, vm)])
  {
    var log' := removed.log + [PciDetached(x.device.address, vm)];
    forall i | |w.log| <= i < |log'| ensures DetachAction(cfg, groups, x, vm, log'[i]) {
      if i < |removed.log| {
        assert log'[i] == removed.log[i];
      }
    }
  }

  /** A detach that fails before its records leaves them as they were, and has
      removed functions of this VM at most. */
  lemma DetachPciFails(cfg: Config, groups: Groups, w: World, x: Routed, permanent: bool, f: PciFaults, vm: string)
    requires TakenFrom(w, x, vm)
    requires var result := DetachOnePci(cfg, groups, w, x, permanent, f).1;
      result.PciFailed? && result.error != SaveFailed
    ensures var w' := DetachOnePci(cfg, groups, w, x, permanent, f).0;
      && w'.pciVms == w.pciVms && w'.persistent == w.persistent && w'.disk == w.disk
      && (w' == w || DetachActions(cfg, groups, x, vm, w.log, w'.log))
  {
    DetachPciEnds(cfg, groups, w, x, permanent, f);
    if vm in cfg.sockets && groups(x.device.address).Ok? {
      RemoveAllRemoves(w, cfg.sockets[vm], Given(groups, x), f.removes);
      var removed := Removed(w, cfg.sockets[vm], Given(groups, x), f.removes).0;
      if Removes(w, removed, cfg.sockets[vm], Given(groups, x)) {
        RemovalActs(cfg, groups, w, removed, x, vm);
      }
    }
  }

  lemma DetachPciStages(cfg: Config, groups: Groups, w: World, x: Routed, permanent: bool, f: PciFaults, vm: string,
                        removed: World, ok: bool)
    requires TakenFrom(w, x, vm) && vm in cfg.sockets && groups(x.device.address).Ok?
    requires Removed(w, cfg.sockets[vm], Given(groups, x), f.removes) == (removed, ok)
    ensures DetachOnePci(cfg, groups, w, x, permanent, f) ==
              if !ok then (removed, PciFailed(CrosvmFailed))
              else FinishDetachPci(cfg, removed, x.device.address, vm, Given(groups, x), permanent, f)
  {
  }

  /** Whatever comes of it, a detach acts on this VM only, and the records of
      the functions it takes are the only ones it drops. */
  lemma DetachPciActs(cfg: Config, groups: Groups, w: World, x: Routed, permanent: bool, f: PciFaults, vm: string)
    requires TakenFrom(w, x, vm)
    ensures var w' := DetachOnePci(cfg, groups, w, x, permanent, f).0;
      && w.log <= w'.log && w'.pciVms.Keys <= w.pciVms.Keys
      && (forall a :: a in w'.pciVms ==> w'.pciVms[a] == w.pciVms[a])
      && (forall i :: |w.log| <= i < |w'.log| ==> DetachAction(cfg, groups, x, vm, w'.log[i]))
  {
    if vm in cfg.sockets && groups(x.device.address).Ok? {
      var (removed, ok) := Removed(w, cfg.sockets[vm], Given(groups, x), f.removes);
      DetachPciStages(cfg, groups, w, x, permanent, f, vm, removed, ok);
      RemovedActs(cfg, groups, w, x, f, vm);
      FinishDetachActs(cfg, groups, w, removed, x, vm, permanent, f);
    } else {
      DetachPciEnds(cfg, groups, w, x, permanent, f);
    }
  }

  lemma RemovedActs(cfg: Config, groups: Groups, w: World, x: Routed, f: PciFaults, vm: string)
    requires groups(x.device.address).Ok? && vm in cfg.sockets
    ensures var removed := Removed(w, cfg.sockets[vm], Given(groups, x), f.removes).0;
      && removed.pciVms == w.pciVms
      && DetachActions(cfg, groups, x, vm, w.log, removed.log)
      && DetachActions(cfg, groups, x, vm, w.log, removed.log + [PciDetached(x.device.address, vm)])
  {
    RemoveAllRemoves(w, cfg.sockets[vm], Given(groups, x), f.removes);
    RemovalActs(cfg, groups, w, Removed(w, cfg.sockets[vm], Given(groups, x), f.removes).0, x, vm);
  }

  lemma FinishDetachActs(cfg: Config, groups: Groups, w: World, removed: World, x: Routed, vm: string,
                         permanent: bool, f: PciFaults)
    requires groups(x.device.address).Ok? && removed.pciVms == w.pciVms
    requires DetachActions(cfg, groups, x, vm, w.log, removed.log + [PciDetached(x.device.address, vm)])
    ensures var w' := FinishDetachPci(cfg, removed, x.device.address, vm, Given(groups, x), permanent, f).0;
      && DetachActions(cfg, groups, x, vm, w.log, w'.log) && w'.pciVms.Keys <= w.pciVms.Keys
      && (forall a :: a in w'.pciVms ==> w'.pciVms[a] == w.pciVms[a])
  {
    FinishDetachPciFields(cfg, removed, x.device.address, vm, Given(groups, x), permanent, f);
  }

  lemma FinishDetachPciFields(cfg: Config, w: World, address: string, vm: string, detach: seq<string>,
                              permanent: bool, f: PciFaults)
    ensures var w' := FinishDetachPci(cfg, w, address, vm, detach, permanent, f).0;
      && w'.log == w.log + [PciDetached(address, vm)] && w'.pciVms == ForgetAll(w.pciVms, detach)
      && w'.guests == w.guests
      && w'.persistent.disconnected ==
         Marks.SetDisconnected(w.persistent.disconnected, PciPersistentId(address), permanent)
      && w'.disk == if cfg.persistency && !f.saveFails then w'.persistent else w.disk
  {
  }
}
