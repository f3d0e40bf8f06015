/** What a pass over the routed PCI functions settles, and that it then rests. */
module PciReconcile {
  import opened Prelude
  import opened World
  import opened PciRules
  import opened PciSpec
  import Marks

  /** What the rule hands to the VM for this function. */
  function Handed(groups: Groups, x: Routed): seq<string>
    requires groups(x.device.address).Ok?
  {
    Passthrough(x.rule, Quarantine(groups(x.device.address).value, x.device.address), x.device.address)
  }

  /** The VM lists everything handed to it, the manager has it on record, and
      the whole group is quarantined. */
  ghost predicate Attached(cfg: Config, groups: Groups, w: World, x: Routed) {
    && x.rule.targetVm in cfg.sockets
    && groups(x.device.address).Ok?
    && var guest := GuestAt(w, cfg.sockets[x.rule.targetVm]);
       guest.Live?
       && (forall a :: a in Handed(groups, x) ==> a in guest.vfio && Get(w.pciVms, a) == Some(x.rule.targetVm))
       && (forall a :: a in Quarantine(groups(x.device.address).value, x.device.address) ==> UnderVfio(w, a))
  }

  ghost predicate Marked(w: World, x: Routed) {
    PciPersistentId(x.device.address) in w.persistent.disconnected
  }

  /** Functions handed over together by different rules go to the same VM. */
  ghost predicate MatesShareTarget(groups: Groups, devices: seq<Routed>) {
    forall i, j :: 0 <= i < |devices| && 0 <= j < |devices| ==> ShareTarget(groups, devices[i], devices[j])
  }

  ghost predicate ShareTarget(groups: Groups, x: Routed, y: Routed) {
    groups(x.device.address).Ok? && groups(y.device.address).Ok? && x.rule.targetVm != y.rule.targetVm ==>
      forall a :: a in Handed(groups, x) ==> a !in Handed(groups, y)
  }

  // ----- one attach -----

  lemma {:induction false} RecordAllRecords(pciVms: map<string, string>, addresses: seq<string>, vm: string)
    ensures forall a :: Get(RecordAll(pciVms, addresses, vm), a) == if a in addresses then Some(vm) else Get(pciVms, a)
  {
    if addresses != [] {
      var front, last := addresses[..|addresses| - 1], addresses[|addresses| - 1];
      RecordAllRecords(pciVms, front, vm);
      assert addresses == front + [last];
    }
  }

  /** VMs keep their sockets and lose no function. */
  ghost predicate GuestsGrow(guests: map<string, Guest>, guests': map<string, Guest>) {
    && guests.Keys == guests'.Keys
    && forall k :: k in guests && guests[k].Live? ==> guests'[k].Live? && guests[k].vfio <= guests'[k].vfio
  }

  lemma AddOneGrows(w: World, socket: string, address: string, outcome: VfioOutcome)
    ensures var (w1, ok) := AddOne(w, socket, address, outcome);
      && GuestsGrow(w.guests, w1.guests)
      && w1 == w.(guests := w1.guests, log := w1.log)
      && (ok ==> GuestAt(w1, socket).Live? && address in GuestAt(w1, socket).vfio)
  {
  }

  lemma GrowTransitive(a: map<string, Guest>, b: map<string, Guest>, c: map<string, Guest>)
    requires GuestsGrow(a, b) && GuestsGrow(b, c)
    ensures GuestsGrow(a, c)
  {
  }

  lemma {:induction false} AddAllGrows(w: World, socket: string, addresses: seq<string>, live: set<string>,
                                       f: PciFaults)
    requires GuestAt(w, socket).Live? && live <= GuestAt(w, socket).vfio
    ensures var (w1, ok) := AddAll(w, socket, addresses, live, f);
      && GuestsGrow(w.guests, w1.guests)
      && w1 == w.(guests := w1.guests, log := w1.log)
      && GuestAt(w1, socket).Live?
      && (ok ==> forall a :: a in addresses ==> a in GuestAt(w1, socket).vfio)
  {
    if addresses != [] {
      var front, last := addresses[..|addresses| - 1], addresses[|addresses| - 1];
      AddAllGrows(w, socket, front, live, f);
      var (w0, ok0) := AddAll(w, socket, front, live, f);
      assert addresses == front + [last];
      if ok0 && last !in live {
        AddOneGrows(w0, socket, last, f.adds(last));
        GrowTransitive(w.guests, w0.guests, AddOne(w0, socket, last, f.adds(last)).0.guests);
      }
    }
  }

  /** Drivers once under vfio-pci stay there, VMs only gain functions, and
      records change for what is handed over only. */
  ghost predicate PciGrows(groups: Groups, w: World, w': World, x: Routed) {
    && GuestsGrow(w.guests, w'.guests)
    && (forall a :: UnderVfio(w, a) ==> UnderVfio(w', a))
    && (w'.pciVms == w.pciVms ||
          (groups(x.device.address).Ok?
           && forall a :: Get(w'.pciVms, a) == if a in Handed(groups, x) then Some(x.rule.targetVm)
               else Get(w.pciVms, a)))
    && (forall i :: i != PciPersistentId(x.device.address) ==>
                    (i in w'.persistent.disconnected <==> i in w.persistent.disconnected))
    && w'.observedUsb == w.observedUsb && w'.observedPci == w.observedPci
    && (w.deferred ==> w'.deferred)
  }

  lemma BindAndAddGrows(w: World, quarantine: seq<string>, attach: seq<string>, socket: string, f: PciFaults)
    requires GuestAt(w, socket).Live?
    ensures var (w1, error) := BindAndAdd(w, quarantine, attach, socket, GuestAt(w, socket).vfio, f);
      && w1 == w.(host := w.host.(pciDrivers := w1.host.pciDrivers), guests := w1.guests, log := w1.log)
      && GuestsGrow(w.guests, w1.guests) && GuestAt(w1, socket).Live?
      && (forall a :: UnderVfio(w, a) ==> UnderVfio(w1, a))
      && (error.None? ==>
            && (forall a :: a in attach ==> a in GuestAt(w1, socket).vfio)
            && (forall a :: a in quarantine ==> UnderVfio(w1, a)))
  {
    BindAllBinds(w, quarantine, f.bindFails);
    var bound := BindAll(w, quarantine, f.bindFails).0;
    AddAllGrows(bound, socket, attach, GuestAt(w, socket).vfio, f);
  }

  lemma FinishAttachPciGrows(cfg: Config, w: World, address: string, vm: string, attach: seq<string>, changed: bool,
                             f: PciFaults)
    ensures var w' := FinishAttachPci(cfg, w, address, vm, attach, changed, f).0;
      && w'.guests == w.guests && w'.host == w.host && w'.deferred == w.deferred
      && w'.observedUsb == w.observedUsb && w'.observedPci == w.observedPci
      && w'.pciVms == RecordAll(w.pciVms, attach, vm)
      && w'.persistent.disconnected == Marks.SetDisconnected(w.persistent.disconnected, PciPersistentId(address), false)
  {
  }

  lemma AttachPciSettles(cfg: Config, groups: Groups, w: World, x: Routed, f: PciFaults)
    ensures var (w', result) := AttachOnePci(cfg, groups, w, x, Some(x.rule.targetVm), f);
      && PciGrows(groups, w, w', x) && w'.deferred == w.deferred
      && (result.PciDone? ==> Attached(cfg, groups, w', x) && !Marked(w', x))
  {
    var address, vm := x.device.address, x.rule.targetVm;
    if vm in cfg.sockets && groups(address).Ok? && GuestAt(w, cfg.sockets[vm]).Live? {
      var socket, quarantine, attach := cfg.sockets[vm], Quarantine(groups(address).value, address), Handed(groups, x);
      BindAndAddGrows(w, quarantine, attach, socket, f);
      var (added, error) := BindAndAdd(w, quarantine, attach, socket, GuestAt(w, socket).vfio, f);
      if error.None? {
        FinishSettles(cfg, groups, w, added, x, true, f);
        FinishSettles(cfg, groups, w, added, x, false, f);
      }
    }
  }

  /** The records written over a quarantine that is bound and handed over. */
  lemma FinishSettles(cfg: Config, groups: Groups, w: World, added: World, x: Routed, changed: bool, f: PciFaults)
    requires x.rule.targetVm in cfg.sockets && groups(x.device.address).Ok?
    requires added == w.(host := w.host.(pciDrivers := added.host.pciDrivers), guests := added.guests, log := added.log)
    requires GuestsGrow(w.guests, added.guests) && forall a :: UnderVfio(w, a) ==> UnderVfio(added, a)
    requires var guest := GuestAt(added, cfg.sockets[x.rule.targetVm]);
      guest.Live? && forall a :: a in Handed(groups, x) ==> a in guest.vfio
    requires forall a :: a in Quarantine(groups(x.device.address).value, x.device.address) ==> UnderVfio(added, a)
    ensures var w' := FinishAttachPci(cfg, added, x.device.address, x.rule.targetVm, Handed(groups, x), changed, f).0;
      PciGrows(groups, w, w', x) && w'.deferred == w.deferred && Attached(cfg, groups, w', x) && !Marked(w', x)
  {
    var address, vm, attach := x.device.address, x.rule.targetVm, Handed(groups, x);
    Marks.SetDisconnectedIsUpdate(w.persistent.disconnected, PciPersistentId(address), false);
    RecordAllRecords(added.pciVms, attach, vm);
    FinishAttachPciGrows(cfg, added, address, vm, attach, changed, f);
  }

  // ----- the pass -----

  lemma GrowKeepsAttached(cfg: Config, groups: Groups, w: World, w': World, x: Routed, y: Routed)
    requires Attached(cfg, groups, w, x) && PciGrows(groups, w, w', y) && ShareTarget(groups, x, y)
    ensures Attached(cfg, groups, w', x)
  {
    var guest, guest' := GuestAt(w, cfg.sockets[x.rule.targetVm]), GuestAt(w', cfg.sockets[x.rule.targetVm]);
    assert guest.vfio <= guest'.vfio;
    forall a | a in Handed(groups, x) ensures a in guest'.vfio && Get(w'.pciVms, a) == Some(x.rule.targetVm) {
      assert a in guest.vfio && Get(w.pciVms, a) == Some(x.rule.targetVm);
    }
  }

  /** Attached, or handed back to the host for good. */
  ghost predicate PciAccounted(cfg: Config, groups: Groups, w: World, x: Routed) {
    Marked(w, x) || Attached(cfg, groups, w, x)
  }

  ghost predicate DistinctAddresses(devices: seq<Routed>) {
    forall i, j :: 0 <= i < |devices| && 0 <= j < |devices| && i != j ==>
                     PciPersistentId(devices[i].device.address) != PciPersistentId(devices[j].device.address)
  }

  lemma ResumeOnePciSettles(cfg: Config, groups: Groups, w: World, x: Routed, f: PciFaults)
    ensures var (w', ok) := ResumeOnePci(cfg, groups, w, x, None, f);
      PciGrows(groups, w, w', x) && (ok && !w'.deferred ==> PciAccounted(cfg, groups, w', x))
  {
    AttachPciSettles(cfg, groups, w, x, f);
  }

  lemma GrowKeepsAccounted(cfg: Config, groups: Groups, w: World, w': World, x: Routed, y: Routed)
    requires PciAccounted(cfg, groups, w, x) && PciGrows(groups, w, w', y) && ShareTarget(groups, x, y)
    requires PciPersistentId(x.device.address) != PciPersistentId(y.device.address)
    ensures PciAccounted(cfg, groups, w', x)
  {
    if !Marked(w, x) {
      GrowKeepsAttached(cfg, groups, w, w', x, y);
    }
  }

  lemma {:induction false} ResumePciSettles(cfg: Config, groups: Groups, w: World, devices: seq<Routed>, n: nat,
                                            fs: string -> PciFaults)
    requires n <= |devices| && MatesShareTarget(groups, devices) && DistinctAddresses(devices)
    ensures var (w', ok) := ResumePci(cfg, groups, w, devices[..n], None, fs);
      && (ok && !w'.deferred ==> forall i :: 0 <= i < n ==> PciAccounted(cfg, groups, w', devices[i]))
      && (w.deferred ==> w'.deferred)
      && w'.observedUsb == w.observedUsb && w'.observedPci == w.observedPci
  {
    if n > 0 {
      var m := n - 1;
      assert devices[..n][..m] == devices[..m];
      ResumePciSettles(cfg, groups, w, devices, m, fs);
      var (w1, ok1) := ResumePci(cfg, groups, w, devices[..m], None, fs);
      ResumeOnePciSettles(cfg, groups, w1, devices[m], fs(devices[m].device.address));
      var (w2, ok2) := ResumeOnePci(cfg, groups, w1, devices[m], None, fs(devices[m].device.address));
      if ok1 && ok2 && !w2.deferred {
        forall i | 0 <= i < m ensures PciAccounted(cfg, groups, w2, devices[i]) {
          GrowKeepsAccounted(cfg, groups, w1, w2, devices[i], devices[m]);
        }
      }
    }
  }

  // ----- resting -----

  lemma {:induction false} BindAllRests(w: World, addresses: seq<string>, fails: set<string>)
    requires forall a :: a in addresses ==> UnderVfio(w, a)
    ensures BindAll(w, addresses, fails) == (w, true)
  {
    if addresses != [] {
      BindAllRests(w, addresses[..|addresses| - 1], fails);
      assert UnderVfio(w, addresses[|addresses| - 1]);
    }
  }

  lemma {:induction false} AddAllRests(w: World, socket: string, addresses: seq<string>, live: set<string>,
                                       f: PciFaults)
    requires forall a :: a in addresses ==> a in live
    ensures AddAll(w, socket, addresses, live, f) == (w, true)
  {
    if addresses != [] {
      AddAllRests(w, socket, addresses[..|addresses| - 1], live, f);
    }
  }

  lemma {:induction false} RecordAllRests(pciVms: map<string, string>, addresses: seq<string>, vm: string)
    requires forall a :: a in addresses ==> Get(pciVms, a) == Some(vm)
    ensures RecordAll(pciVms, addresses, vm) == pciVms
  {
    if addresses != [] {
      RecordAllRests(pciVms, addresses[..|addresses| - 1], vm);
      assert Get(pciVms, addresses[|addresses| - 1]) == Some(vm);
      assert pciVms[addresses[|addresses| - 1] := vm] == pciVms;
    }
  }

  /** Nothing but the saved copy and the flag for deferred work may differ. */
  ghost predicate AtRest(w: World, w': World) {
    w' == w.(disk := w'.disk, deferred := w'.deferred) && (w'.disk == w.disk || w'.disk == w.persistent)
  }

  lemma FinishRests(cfg: Config, w: World, address: string, vm: string, attach: seq<string>, f: PciFaults)
    requires forall a :: a in attach ==> Get(w.pciVms, a) == Some(vm)
    requires PciPersistentId(address) !in w.persistent.disconnected
    ensures AtRest(w, FinishAttachPci(cfg, w, address, vm, attach, false, f).0)
  {
    RecordAllRests(w.pciVms, attach, vm);
    Marks.SetDisconnectedIsUpdate(w.persistent.disconnected, PciPersistentId(address), false);
  }

  lemma AttachedPciRests(cfg: Config, groups: Groups, w: World, x: Routed, f: PciFaults)
    requires Attached(cfg, groups, w, x) && !Marked(w, x)
    ensures AtRest(w, AttachOnePci(cfg, groups, w, x, Some(x.rule.targetVm), f).0)
  {
    var address, vm := x.device.address, x.rule.targetVm;
    var socket, attach := cfg.sockets[vm], Handed(groups, x);
    BindAllRests(w, Quarantine(groups(address).value, address), f.bindFails);
    AddAllRests(w, socket, attach, GuestAt(w, socket).vfio, f);
    assert BindAndAdd(w, Quarantine(groups(address).value, address), attach, socket, GuestAt(w, socket).vfio, f) ==
        (w, None);
    assert !Unrecorded(w.pciVms, attach, vm);
    FinishRests(cfg, w, address, vm, attach, f);
  }

  /** A settled function is left exactly as it is, whatever fails. */
  lemma SettledPciRests(cfg: Config, groups: Groups, w: World, x: Routed, f: PciFaults)
    requires PciAccounted(cfg, groups, w, x)
    ensures AtRest(w, ResumeOnePci(cfg, groups, w, x, None, f).0)
  {
    if !Marked(w, x) {
      AttachedPciRests(cfg, groups, w, x, f);
    }
  }

  lemma {:induction false} ResumePciRests(cfg: Config, groups: Groups, w: World, devices: seq<Routed>,
                                          fs: string -> PciFaults)
    requires forall i :: 0 <= i < |devices| ==> PciAccounted(cfg, groups, w, devices[i])
    ensures AtRest(w, ResumePci(cfg, groups, w, devices, None, fs).0)
  {
    if devices != [] {
      var n := |devices| - 1;
      ResumePciRests(cfg, groups, w, devices[..n], fs);
      var w1 := ResumePci(cfg, groups, w, devices[..n], None, fs).0;
      assert PciAccounted(cfg, groups, w, devices[n]);
      assert PciAccounted(cfg, groups, w1, devices[n]);
      SettledPciRests(cfg, groups, w1, devices[n], fs(devices[n].device.address));
    }
  }
}
