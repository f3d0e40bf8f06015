/**
 What each PCI operation of the manager does to the world. A PCI function is
 quarantined with its whole IOMMU group under vfio-pci before a VM gets it.
 */
module PciSpec {
  import opened Prelude
  import opened World
  import opened PciRules
  import Marks

  const VFIO_PCI: string := "vfio-pci"

  /** A hotplug add or remove as seen from outside: its first listing fails
      and no command is issued, the command is refused, it is confirmed, or it
      took effect and was never confirmed. */
  datatype VfioOutcome = VfioUnlisted | VfioRefused | VfioConfirmed | VfioLost

  datatype PciFaults = PciFaults(
    listFails: bool,
    bindFails: set<string>,
    adds: string -> VfioOutcome,
    removes: string -> VfioOutcome,
    saveFails: bool)

  datatype PciResult = PciDone | PciFailed(error: Failure)

  function Quarantine(group: seq<string>, address: string): seq<string> {
    if group == [] then [address] else group
  }

  /** What the VM gets: the whole quarantine or the function alone. */
  function Passthrough(rule: PciMatch, quarantine: seq<string>, address: string): seq<string> {
    if rule.iommuAddAll then quarantine else [address]
  }

  function WithVfio(w: World, socket: string, vfio: set<string>): World
    requires GuestAt(w, socket).Live?
  {
    w.(guests := w.guests[socket := w.guests[socket].(vfio := vfio)])
  }

  function BindOne(w: World, address: string): World {
    if Get(w.host.pciDrivers, address) == Some(VFIO_PCI) then w
    else Log(w, BindVfio(address)).(host := w.host.(pciDrivers := w.host.pciDrivers[address := VFIO_PCI]))
  }

  /** Binds in order and stops at the first failure. */
  function BindAll(w: World, addresses: seq<string>, fails: set<string>): (World, bool) {
    if addresses == [] then (w, true)
    else
      var (w1, ok) := BindAll(w, addresses[..|addresses| - 1], fails);
      var last := addresses[|addresses| - 1];
      if !ok then (w1, false)
      else if Get(w1.host.pciDrivers, last) != Some(VFIO_PCI) && last in fails then (w1, false)
      else (BindOne(w1, last), true)
  }

  /** Crosvm's confirmed add: nothing to do when the VM already lists the function. */
  function AddOne(w: World, socket: string, address: string, outcome: VfioOutcome): (World, bool) {
    var guest := GuestAt(w, socket);
    if !guest.Live? || outcome.VfioUnlisted? then (w, false)
    else if address in guest.vfio then (w, true)
    else
      var issued := Log(w, VfioAddCommand(socket, address));
      if outcome.VfioRefused? then (issued, false)
      else (WithVfio(issued, socket, guest.vfio + {address}), outcome.VfioConfirmed?)
  }

  function AddAll(w: World, socket: string, addresses: seq<string>, live: set<string>, f: PciFaults): (World, bool) {
    if addresses == [] then (w, true)
    else
      var (w1, ok) := AddAll(w, socket, addresses[..|addresses| - 1], live, f);
      var last := addresses[|addresses| - 1];
      if !ok || last in live then (w1, ok)
      else AddOne(w1, socket, last, f.adds(last))
  }

  function RecordAll(pciVms: map<string, string>, addresses: seq<string>, vm: string): map<string, string> {
    if addresses == [] then pciVms
    else RecordAll(pciVms, addresses[..|addresses| - 1], vm)[addresses[|addresses| - 1] := vm]
  }

  function ForgetAll(pciVms: map<string, string>, addresses: seq<string>): map<string, string> {
    pciVms - set a | a in addresses
  }

  predicate Unrecorded(pciVms: map<string, string>, addresses: seq<string>, vm: string) {
    exists i :: 0 <= i < |addresses| && Get(pciVms, addresses[i]) != Some(vm)
  }

  function MarkPci(cfg: Config, w: World, address: string, value: bool, fails: bool): World {
    Saved(cfg, w.(persistent := w.persistent.(
      disconnected := Marks.SetDisconnected(w.persistent.disconnected, PciPersistentId(address), value))), fails)
  }

  /** The whole quarantine is bound before the first function is added. */
  function BindAndAdd(w: World, quarantine: seq<string>, attach: seq<string>, socket: string, live: set<string>,
                      f: PciFaults)
    : (World, Option<Failure>)
  {
    var (bound, ok) := BindAll(w, quarantine, f.bindFails);
    if !ok then (bound, Some(BindFailed))
    else
      var (added, done) := AddAll(bound, socket, attach, live, f);
      (added, if done then None else Some(CrosvmFailed))
  }

  function FinishAttachPci(cfg: Config, w: World, address: string, vm: string, addresses: seq<string>, changed: bool,
                           f: PciFaults)
    : (World, PciResult)
  {
    var recorded := w.(pciVms := RecordAll(w.pciVms, addresses, vm));
    var lifted := MarkPci(cfg, recorded, address, false, f.saveFails);
    if SaveFails(cfg, f.saveFails) then (lifted, PciFailed(SaveFailed))
    else (if changed then Log(lifted, PciAttached(address, vm)) else lifted, PciDone)
  }

  function AttachOnePci(cfg: Config, groups: Groups, w: World, x: Routed, requested: Option<string>,
                        f: PciFaults): (World, PciResult) {
    var address := x.device.address;
    var vm := x.rule.targetVm;
    if requested.Some? && requested.value != vm then (w, PciFailed(NotAllowed))
    else if vm !in cfg.sockets then (w, PciFailed(UnknownVm))
    else
      var socket := cfg.sockets[vm];
      var guest := GuestAt(w, socket);
      if !guest.Live? || f.listFails then (w, PciFailed(CrosvmFailed))
      else
        match groups(address)
        case Err(_) => (w, PciFailed(GroupUnreadable))
        case Ok(group) =>
          if x.rule.iommuSkipIfShared && |group| > 1 then (w, PciFailed(GroupShared))
          else
            var attach := Passthrough(x.rule, Quarantine(group, address), address);
            var (added, error) := BindAndAdd(w, Quarantine(group, address), attach, socket, guest.vfio, f);
            if error.Some? then (added, PciFailed(error.value))
            else
              var changed := Unrecorded(w.pciVms, attach, vm) || exists a :: a in attach && a !in guest.vfio;
              FinishAttachPci(cfg, added, address, vm, attach, changed, f)
  }

  function RemoveOne(w: World, socket: string, address: string, outcome: VfioOutcome): (World, bool) {
    var guest := GuestAt(w, socket);
    if !guest.Live? || outcome.VfioUnlisted? then (w, false)
    else if address !in guest.vfio then (w, true)
    else
      var issued := Log(w, VfioRemoveCommand(socket, address));
      if outcome.VfioRefused? then (issued, false)
      else (WithVfio(issued, socket, guest.vfio - {address}), outcome.VfioConfirmed?)
  }

  function RemoveAll(w: World, socket: string, addresses: seq<string>, outcomes: string -> VfioOutcome): (World, bool) {
    if addresses == [] then (w, true)
    else
      var (w1, ok) := RemoveAll(w, socket, addresses[..|addresses| - 1], outcomes);
      if !ok then (w1, false)
      else RemoveOne(w1, socket, addresses[|addresses| - 1], outcomes(addresses[|addresses| - 1]))
  }

  /** A VM that is gone has nothing to give back. */
  function Removed(w: World, socket: string, addresses: seq<string>, outcomes: string -> VfioOutcome): (World, bool) {
    if GuestAt(w, socket).NoSocket? then (w, true) else RemoveAll(w, socket, addresses, outcomes)
  }

  function DetachOnePci(cfg: Config, groups: Groups, w: World, x: Routed, permanent: bool, f: PciFaults)
    : (World, PciResult)
  {
    var address := x.device.address;
    var vm := if address in w.pciVms then w.pciVms[address] else x.rule.targetVm;
    if vm !in cfg.sockets then (w, PciFailed(UnknownVm))
    else
      match groups(address)
      case Err(_) => (w, PciFailed(GroupUnreadable))
      case Ok(group) =>
        var detach := if x.rule.iommuAddAll then Quarantine(group, address) else [address];
        var (removed, ok) := Removed(w, cfg.sockets[vm], detach, f.removes);
        if !ok then (removed, PciFailed(CrosvmFailed))
        else FinishDetachPci(cfg, removed, address, vm, detach, permanent, f)
  }

  function FinishDetachPci(cfg: Config, w: World, address: string, vm: string, detach: seq<string>, permanent: bool,
                           f: PciFaults)
    : (World, PciResult)
  {
    var forgotten := Log(w.(pciVms := ForgetAll(w.pciVms, detach)), PciDetached(address, vm));
    (MarkPci(cfg, forgotten, address, permanent, f.saveFails),
     if SaveFails(cfg, f.saveFails) then PciFailed(SaveFailed) else PciDone)
  }

  /** One function of a suspend; functions whose rule opts out were filtered before. */
  function SuspendOnePci(cfg: Config, groups: Groups, w: World, x: Routed, scope: Option<string>, f: PciFaults)
    : (World, bool)
  {
    var attached := Get(w.pciVms, x.device.address);
    if x.rule.skipOnSuspend || attached.None? || (scope.Some? && scope != attached) then (w, true)
    else
      var (w1, result) := DetachOnePci(cfg, groups, w, x, false, f);
      (w1, result.PciDone?)
  }

  function SuspendPci(cfg: Config, groups: Groups, w: World, devices: seq<Routed>, scope: Option<string>,
                      fs: string -> PciFaults): (World, bool)
  {
    if devices == [] then (w, true)
    else
      var (w1, ok) := SuspendPci(cfg, groups, w, devices[..|devices| - 1], scope, fs);
      var x := devices[|devices| - 1];
      var (w2, last) := SuspendOnePci(cfg, groups, w1, x, scope, fs(x.device.address));
      (w2, ok && last)
  }

  function ResumeOnePci(cfg: Config, groups: Groups, w: World, x: Routed, scope: Option<string>,
                        f: PciFaults): (World, bool) {
    if PciPersistentId(x.device.address) in w.persistent.disconnected then (w, true)
    else if scope.Some? && scope.value != x.rule.targetVm then (w, true)
    else
      var (w1, result) := AttachOnePci(cfg, groups, w, x, Some(x.rule.targetVm), f);
      if result.PciDone? then (w1, true)
      else if VmStopped(cfg, w1, Some(x.rule.targetVm)) then (w1.(deferred := true), true)
      else (w1, false)
  }

  function ResumePci(cfg: Config, groups: Groups, w: World, devices: seq<Routed>, scope: Option<string>,
                     fs: string -> PciFaults): (World, bool)
  {
    if devices == [] then (w, true)
    else
      var (w1, ok) := ResumePci(cfg, groups, w, devices[..|devices| - 1], scope, fs);
      var x := devices[|devices| - 1];
      var (w2, last) := ResumeOnePci(cfg, groups, w1, x, scope, fs(x.device.address));
      (w2, ok && last)
  }

  /** Functions no longer scanned lose their record. */
  function ObservePci(w: World, scanned: set<string>, connected: seq<Action>, gone: seq<Action>): World {
    w.(pciVms := w.pciVms - (w.observedPci - scanned),
       observedPci := scanned,
       log := w.log + connected + gone)
  }

  // ----- a loop that stops at a failure has done what the whole list would do -----

  lemma {:induction false} BindAllStops(w: World, addresses: seq<string>, n: nat, fails: set<string>)
    requires n <= |addresses| && !BindAll(w, addresses[..n], fails).1
    ensures BindAll(w, addresses, fails) == BindAll(w, addresses[..n], fails)
    decreases |addresses| - n
  {
    if n == |addresses| {
      assert addresses[..n] == addresses;
    } else {
      assert addresses[..n + 1][..n] == addresses[..n];
      BindAllStops(w, addresses, n + 1, fails);
    }
  }

  lemma {:induction false} AddAllStops(w: World, socket: string, addresses: seq<string>, n: nat, live: set<string>,
                                       f: PciFaults)
    requires n <= |addresses| && !AddAll(w, socket, addresses[..n], live, f).1
    ensures AddAll(w, socket, addresses, live, f) == AddAll(w, socket, addresses[..n], live, f)
    decreases |addresses| - n
  {
    if n == |addresses| {
      assert addresses[..n] == addresses;
    } else {
      assert addresses[..n + 1][..n] == addresses[..n];
      AddAllStops(w, socket, addresses, n + 1, live, f);
    }
  }

  lemma {:induction false} RemoveAllStops(w: World, socket: string, addresses: seq<string>, n: nat,
                                          outcomes: string -> VfioOutcome)
    requires n <= |addresses| && !RemoveAll(w, socket, addresses[..n], outcomes).1
    ensures RemoveAll(w, socket, addresses, outcomes) == RemoveAll(w, socket, addresses[..n], outcomes)
    decreases |addresses| - n
  {
    if n == |addresses| {
      assert addresses[..n] == addresses;
    } else {
      assert addresses[..n + 1][..n] == addresses[..n];
      RemoveAllStops(w, socket, addresses, n + 1, outcomes);
    }
  }

  // ----- quarantine -----

  /** Every member of a group reads the same group. */
  ghost predicate ConsistentGroups(groups: Groups) {
    forall a, m :: groups(a).Ok? && m in groups(a).value ==> groups(m) == groups(a)
  }

  ghost predicate UnderVfio(w: World, address: string) {
    Get(w.host.pciDrivers, address) == Some(VFIO_PCI)
  }

  /** Every add in the log from `start` on comes after each member of the
      function's group was bound, during the log or before it. */
  ghost predicate AddsQuarantined(groups: Groups, w: World, log: seq<Action>, start: nat)
    requires start <= |log|
  {
    forall i :: start <= i < |log| && log[i].VfioAddCommand? ==>
                  groups(log[i].address).Ok? &&
                  forall m :: m in Quarantine(groups(log[i].address).value, log[i].address) ==>
                                UnderVfio(w, m) || exists j :: start <= j < i && log[j] == BindVfio(m)
  }

  /** Binding changes drivers only; what it returns bound was bound here or before. */
  lemma {:induction false} BindAllBinds(w: World, addresses: seq<string>, fails: set<string>)
    ensures var (w1, ok) := BindAll(w, addresses, fails);
      && w1 == w.(host := w.host.(pciDrivers := w1.host.pciDrivers), log := w1.log)
      && |w.log| <= |w1.log| && w1.log[..|w.log|] == w.log
      && (forall i :: |w.log| <= i < |w1.log| ==> w1.log[i].BindVfio?)
      && (ok ==> forall a :: a in addresses ==> UnderVfio(w1, a))
      && (forall a :: UnderVfio(w, a) ==> UnderVfio(w1, a))
      && (forall a :: UnderVfio(w1, a) && !UnderVfio(w, a) ==>
            exists j :: |w.log| <= j < |w1.log| && w1.log[j] == BindVfio(a))
  {
    if addresses != [] {
      var front, last := addresses[..|addresses| - 1], addresses[|addresses| - 1];
      BindAllBinds(w, front, fails);
      var (w0, ok0) := BindAll(w, front, fails);
      assert addresses == front + [last];
      BindOneBinds(w, w0, last);
    }
  }

  lemma BindOneBinds(w: World, w0: World, last: string)
    requires w0 == w.(host := w.host.(pciDrivers := w0.host.pciDrivers), log := w0.log) && w.log <= w0.log
    requires forall i :: |w.log| <= i < |w0.log| ==> w0.log[i].BindVfio?
    requires forall a :: UnderVfio(w0, a) && !UnderVfio(w, a) ==>
                           exists j :: |w.log| <= j < |w0.log| && w0.log[j] == BindVfio(a)
    ensures var w1 := BindOne(w0, last);
      && w1 == w.(host := w.host.(pciDrivers := w1.host.pciDrivers), log := w1.log) && w.log <= w1.log
      && (forall i :: |w.log| <= i < |w1.log| ==> w1.log[i].BindVfio?)
      && UnderVfio(w1, last) && (forall a :: UnderVfio(w0, a) ==> UnderVfio(w1, a))
      && (forall a :: UnderVfio(w1, a) && !UnderVfio(w, a) ==>
            exists j :: |w.log| <= j < |w1.log| && w1.log[j] == BindVfio(a))
  {
    var w1 := BindOne(w0, last);
    if !UnderVfio(w0, last) {
      assert w1.log == w0.log + [BindVfio(last)];
      assert w1.log[|w0.log|] == BindVfio(last);
      forall a | UnderVfio(w1, a) && !UnderVfio(w, a)
        ensures exists j :: |w.log| <= j < |w1.log| && w1.log[j] == BindVfio(a) {
        if a != last {
          assert UnderVfio(w0, a);
          var j :| |w.log| <= j < |w0.log| && w0.log[j] == BindVfio(a);
          assert w1.log[j] == BindVfio(a);
        }
      }
    }
  }

  /** Adding changes the VM's own functions only, and issues adds of the given addresses only. */
  lemma {:induction false} AddAllAdds(w: World, socket: string, addresses: seq<string>, live: set<string>, f: PciFaults)
    ensures var (w1, ok) := AddAll(w, socket, addresses, live, f);
      && w1 == w.(guests := w1.guests, log := w1.log)
      && |w.log| <= |w1.log| && w1.log[..|w.log|] == w.log
      && (forall i :: |w.log| <= i < |w1.log| ==> w1.log[i].VfioAddCommand? && w1.log[i].address in addresses)
  {
    if addresses != [] {
      var front, last := addresses[..|addresses| - 1], addresses[|addresses| - 1];
      AddAllAdds(w, socket, front, live, f);
      var (w0, ok0) := AddAll(w, socket, front, live, f);
      var (w1, ok) := AddAll(w, socket, addresses, live, f);
      assert addresses == front + [last];
      assert w1.log == w0.log || w1.log == w0.log + [VfioAddCommand(socket, last)];
    }
  }

  lemma QuarantineBeforeAdd(groups: Groups, w: World, address: string, attach: seq<string>, socket: string,
                            live: set<string>, f: PciFaults)
    requires ConsistentGroups(groups) && groups(address).Ok?
    requires attach == Quarantine(groups(address).value, address) || attach == [address]
    ensures var w1 := BindAndAdd(w, Quarantine(groups(address).value, address), attach, socket, live, f).0;
      && |w.log| <= |w1.log| && AddsQuarantined(groups, w, w1.log, |w.log|)
      && w1 == w.(host := w.host.(pciDrivers := w1.host.pciDrivers), guests := w1.guests, log := w1.log)
  {
    var quarantine := Quarantine(groups(address).value, address);
    BindAllBinds(w, quarantine, f.bindFails);
    var (bound, ok) := BindAll(w, quarantine, f.bindFails);
    if ok {
      var (added, done) := AddAll(bound, socket, attach, live, f);
      AddAllAdds(bound, socket, attach, live, f);
      assert forall k :: 0 <= k < |bound.log| ==> added.log[k] == bound.log[k];
      forall i | |w.log| <= i < |added.log| && added.log[i].VfioAddCommand?
        ensures groups(added.log[i].address).Ok?
        ensures forall m :: m in Quarantine(groups(added.log[i].address).value, added.log[i].address) ==>
                              UnderVfio(w, m) || exists j :: |w.log| <= j < i && added.log[j] == BindVfio(m)
      {
        var a := added.log[i].address;
        assert a in attach && groups(a) == groups(address);
        forall m | m in Quarantine(groups(a).value, a) && !UnderVfio(w, m)
          ensures exists j :: |w.log| <= j < i && added.log[j] == BindVfio(m)
        {
          assert m in quarantine && UnderVfio(bound, m);
          var j :| |w.log| <= j < |bound.log| && bound.log[j] == BindVfio(m);
          assert added.log[j] == BindVfio(m);
        }
      }
    }
  }

  lemma FinishAttachPciLog(cfg: Config, groups: Groups, w: World, added: World, address: string, vm: string,
                           addresses: seq<string>, changed: bool, f: PciFaults)
    requires |w.log| <= |added.log| && AddsQuarantined(groups, w, added.log, |w.log|)
    ensures var (w1, result) := FinishAttachPci(cfg, added, address, vm, addresses, changed, f);
      && |w.log| <= |w1.log| && AddsQuarantined(groups, w, w1.log, |w.log|)
      && (result.PciFailed? ==> result.error == SaveFailed)
  {
    AddsQuarantinedExtends(groups, w, added.log, |w.log|, PciAttached(address, vm));
  }

  lemma AddsQuarantinedExtends(groups: Groups, w: World, log: seq<Action>, start: nat, action: Action)
    requires start <= |log| && AddsQuarantined(groups, w, log, start) && !action.VfioAddCommand?
    ensures AddsQuarantined(groups, w, log + [action], start)
  {
    forall i | start <= i < |log + [action]| && (log + [action])[i].VfioAddCommand?
      ensures groups((log + [action])[i].address).Ok?
      ensures forall m :: m in Quarantine(groups((log + [action])[i].address).value, (log + [action])[i].address) ==>
                            UnderVfio(w, m) || exists j :: start <= j < i && (log + [action])[j] == BindVfio(m)
    {
      var a := log[i].address;
      forall m | m in Quarantine(groups(a).value, a) && !UnderVfio(w, m)
        ensures exists j :: start <= j < i && (log + [action])[j] == BindVfio(m)
      {
        var j :| start <= j < i && log[j] == BindVfio(m);
        assert (log + [action])[j] == BindVfio(m);
      }
    }
  }

  /** No function is handed to a VM before every member of its IOMMU group
      has been put under vfio-pci, on every path through the attach; and an
      attach that fails before its records are written records nothing. */
  lemma AttachPciQuarantines(cfg: Config, groups: Groups, w: World, x: Routed, requested: Option<string>, f: PciFaults)
    requires ConsistentGroups(groups)
    ensures var (w1, result) := AttachOnePci(cfg, groups, w, x, requested, f);
      && |w.log| <= |w1.log| && AddsQuarantined(groups, w, w1.log, |w.log|)
      && (result.PciFailed? && result.error != SaveFailed ==>
            w1.pciVms == w.pciVms && w1.persistent == w.persistent && w1.disk == w.disk)
  {
    var address, vm := x.device.address, x.rule.targetVm;
    if vm in cfg.sockets && groups(address).Ok? && GuestAt(w, cfg.sockets[vm]).Live? {
      var quarantine := Quarantine(groups(address).value, address);
      var attach := Passthrough(x.rule, quarantine, address);
      var socket, live := cfg.sockets[vm], GuestAt(w, cfg.sockets[vm]).vfio;
      QuarantineBeforeAdd(groups, w, address, attach, socket, live, f);
      var added := BindAndAdd(w, quarantine, attach, socket, live, f).0;
      var changed := AttachPciEnds(cfg, groups, w, x, requested, f);
      FinishAttachPciLog(cfg, groups, w, added, address, vm, attach, changed, f);
    }
  }

  /** The three ways out of a PCI attach: refused, failed while binding or
      adding, and recorded. */
  lemma AttachPciEnds(cfg: Config, groups: Groups, w: World, x: Routed, requested: Option<string>, f: PciFaults)
    returns (changed: bool)
    requires x.rule.targetVm in cfg.sockets && groups(x.device.address).Ok?
        && GuestAt(w, cfg.sockets[x.rule.targetVm]).Live?
    ensures var (w1, result) := AttachOnePci(cfg, groups, w, x, requested, f);
      var quarantine := Quarantine(groups(x.device.address).value, x.device.address);
      var socket := cfg.sockets[x.rule.targetVm];
      var attach := Passthrough(x.rule, quarantine, x.device.address);
      var (added, error) := BindAndAdd(w, quarantine, attach, socket, GuestAt(w, socket).vfio, f);
      || (w1 == w && result.PciFailed? && result.error != SaveFailed)
      || (error.Some? && w1 == added && result == PciFailed(error.value) && error != Some(SaveFailed))
      || (error.None? && (w1, result) == FinishAttachPci(cfg, added, x.device.address, x.rule.targetVm, attach,
                                                         changed, f))
  {
    var vm, live := x.rule.targetVm, GuestAt(w, cfg.sockets[x.rule.targetVm]).vfio;
    var attach := Passthrough(x.rule, Quarantine(groups(x.device.address).value, x.device.address), x.device.address);
    changed := Unrecorded(w.pciVms, attach, vm) || exists a :: a in attach && a !in live;
  }

  /** The ways out of a PCI detach: refused, failed while removing, and recorded. */
  lemma DetachPciEnds(cfg: Config, groups: Groups, w: World, x: Routed, permanent: bool, f: PciFaults)
    ensures var (w1, result) := DetachOnePci(cfg, groups, w, x, permanent, f);
      var address := x.device.address;
      var vm := if address in w.pciVms then w.pciVms[address] else x.rule.targetVm;
      || w1 == w
      || (&& vm in cfg.sockets && groups(address).Ok?
          && var detach := if x.rule.iommuAddAll then Quarantine(groups(address).value, address) else [address];
             var removed := Removed(w, cfg.sockets[vm], detach, f.removes).0;
             w1 == removed || (w1, result) == FinishDetachPci(cfg, removed, address, vm, detach, permanent, f))
  {
  }
}
