/** What an operation on one device leaves alone. */
module Frames {
  import opened Prelude
  import opened World
  import opened UsbSpec
  import Marks

  /** The same VMs behind the same sockets; only their USB ports may differ. */
  ghost predicate SameVms(guests: map<string, Guest>, guests': map<string, Guest>) {
    && guests.Keys == guests'.Keys
    && forall k :: k in guests ==>
         match guests[k]
         case NoSocket => guests'[k] == NoSocket
         case Stale(g) => guests'[k] == Stale(g)
         case Live(g, _, vfio) => guests'[k].Live? && guests'[k].generation == g && guests'[k].vfio == vfio
  }

  /** The marked devices other than this one. */
  ghost function OtherMarks(list: seq<string>, id: string): set<string> {
    (set i | i in list) - {id}
  }

  ghost predicate SamePersistentElsewhere(p: Persistent, p': Persistent, id: string, sysName: string) {
    && Elsewhere(p.ports, p'.ports, sysName)
    && Elsewhere(p.selected, p'.selected, id)
    && OtherMarks(p.disconnected, id) == OtherMarks(p'.disconnected, id)
  }

  /** The saved state is the old one or agrees with the live one about every other device. */
  ghost predicate DiskFrom(w: World, w': World, id: string, sysName: string) {
    w'.disk == w.disk || SamePersistentElsewhere(w.persistent, w'.disk, id, sysName)
  }

  ghost predicate SameUsbVmsElsewhere(m: map<string, string>, m': map<string, string>, node: Option<string>) {
    if node.Some? then Elsewhere(m, m', node.value) else m == m'
  }

  /** The device's own binding is the one it had, or describes the device. */
  ghost predicate OwnBinding(ports: map<string, Binding>, ports': map<string, Binding>, d: UsbDevice) {
    d.sysName in ports' ==>
      || (d.sysName in ports && ports'[d.sysName] == ports[d.sysName])
      || (ports'[d.sysName].vid == d.vid && ports'[d.sysName].pid == d.pid)
  }

  /** Records of every other device are untouched, and so is everything that
      is not about USB attachment. */
  ghost predicate TouchesOnly(w: World, w': World, d: UsbDevice) {
    && OwnBinding(w.persistent.ports, w'.persistent.ports, d)
    && SamePersistentElsewhere(w.persistent, w'.persistent, PersistentId(d), d.sysName)
    && DiskFrom(w, w', PersistentId(d), d.sysName)
    && w.pending - {PersistentId(d)} == w'.pending - {PersistentId(d)}
    && SameUsbVmsElsewhere(w.usbVms, w'.usbVms, d.node)
    && SameVms(w.guests, w'.guests)
    && w.reportedHubs <= w'.reportedHubs
    && w'.pciVms == w.pciVms
    && w'.observedUsb == w.observedUsb
    && w'.observedPci == w.observedPci
    && w'.deferred == w.deferred
    && w'.usbRouting == w.usbRouting && w'.gateLog == w.gateLog
    && w'.host.pciDrivers == w.host.pciDrivers
  }

  lemma MarksFrame(list: seq<string>, id: string, value: bool)
    ensures OtherMarks(Marks.SetDisconnected(list, id, value), id) == OtherMarks(list, id)
  {
    Marks.SetDisconnectedIsUpdate(list, id, value);
  }

  lemma ForgetFrame(w: World, d: UsbDevice, node: string, permanent: bool)
    requires d.node == Some(node)
    ensures TouchesOnly(w, Forget(w, d, node, permanent), d)
  {
    MarksFrame(w.persistent.disconnected, PersistentId(d), permanent);
    UpdateElsewhere(w.usbVms, node, "");
    ForgetPortFrame(w.persistent.ports, d.sysName);
  }

  lemma ForgetPortFrame(ports: map<string, Binding>, sysName: string)
    ensures Elsewhere(ports, Without(ports, sysName), sysName)
  {
    assert Without(ports, sysName) == Without(Without(ports, sysName), sysName);
  }

  lemma TouchesOnlyTransitive(w: World, w1: World, w2: World, d: UsbDevice)
    requires TouchesOnly(w, w1, d) && TouchesOnly(w1, w2, d)
    ensures TouchesOnly(w, w2, d)
  {
  }

  lemma DetachPortFrame(w: World, socket: string, port: nat, fails: bool)
    requires GuestAt(w, socket).Live?
    ensures var (w1, _) := DetachPort(w, socket, port, fails);
      SameVms(w.guests, w1.guests) && w1 == w.(guests := w1.guests, log := w1.log)
  {
  }

  /** Giving back a stale port leaves the new one in place. */
  lemma CleanStaleEffects(w: World, socket: string, stale: Option<nat>, port: nat, fails: bool)
    requires GuestAt(w, socket).Live?
    ensures var (w1, _) := CleanStale(w, socket, stale, port, fails);
      && SameVms(w.guests, w1.guests) && w1 == w.(guests := w1.guests, log := w1.log)
      && (w1.log == w.log || (stale.Some? && w1.log == w.log + [UsbDetachCommand(socket, stale.value)]))
      && GuestAt(w1, socket).Live?
      && (port in GuestAt(w, socket).ports ==>
            port in GuestAt(w1, socket).ports && GuestAt(w1, socket).ports[port] == GuestAt(w, socket).ports[port])
  {
  }

  lemma FinishDetachFrame(cfg: Config, w: World, d: UsbDevice, node: string, permanent: bool, f: DetachFaults)
    requires d.node == Some(node)
    ensures TouchesOnly(w, FinishDetach(cfg, w, d, node, permanent, f).0, d)
    ensures FinishDetach(cfg, w, d, node, permanent, f).0.guests == w.guests
  {
    ForgetFrame(w, d, node, permanent);
  }

  lemma ReleaseFrame(w: World, socket: string, binding: Option<Binding>, d: UsbDevice, f: DetachFaults)
    ensures var w1 := ReleaseFromVm(w, socket, binding, d, f).0;
      SameVms(w.guests, w1.guests) && w1 == w.(guests := w1.guests, log := w1.log)
  {
    var guest := GuestAt(w, socket);
    if guest.Live? {
      var release := PortToRelease(guest.ports, guest.generation, binding, d);
      if release.Ok? && release.value.Some? {
        DetachPortFrame(w, socket, release.value.value, f.detachFails);
      }
    }
  }

  lemma DetachFrame(cfg: Config, w: World, d: UsbDevice, permanent: bool, f: DetachFaults)
    ensures TouchesOnly(w, DetachOne(cfg, w, d, permanent, f).0, d)
  {
    if d.node.Some? {
      var node := d.node.value;
      var holder := Holder(w, d, node);
      if holder.None? {
        FinishDetachFrame(cfg, w, d, node, permanent, f);
      } else if holder.value in cfg.sockets {
        var w1 := ReleaseFromVm(w, cfg.sockets[holder.value], Get(w.persistent.ports, d.sysName), d, f).0;
        ReleaseFrame(w, cfg.sockets[holder.value], Get(w.persistent.ports, d.sysName), d, f);
        var noted := Log(w1, UsbDetached(node, holder.value));
        assert TouchesOnly(w, noted, d);
        FinishDetachFrame(cfg, noted, d, node, permanent, f);
        TouchesOnlyTransitive(w, noted, FinishDetach(cfg, noted, d, node, permanent, f).0, d);
      }
    }
  }

  lemma FinishDetachShape(cfg: Config, w: World, d: UsbDevice, node: string, permanent: bool, f: DetachFaults)
    ensures var w' := FinishDetach(cfg, w, d, node, permanent, f).0;
      && w'.persistent == Forget(w, d, node, permanent).persistent
      && w'.usbVms == Without(w.usbVms, node)
      && w'.observedUsb == w.observedUsb
      && w'.guests == w.guests
  {
  }

  /** A detach that succeeds, field by field. */
  lemma DetachDoneShape(cfg: Config, w: World, d: UsbDevice, permanent: bool, f: DetachFaults)
    requires DetachOne(cfg, w, d, permanent, f).1.Done?
    ensures d.node.Some?
    ensures Dropped(w, DetachOne(cfg, w, d, permanent, f).0, d, permanent)
    ensures var holder := Holder(w, d, d.node.value);
      if holder.None? then DetachOne(cfg, w, d, permanent, f).0.guests == w.guests
      else
        && holder.value in cfg.sockets
        && var (w1, error) := ReleaseFromVm(w, cfg.sockets[holder.value], Get(w.persistent.ports, d.sysName), d, f);
           error.None? && DetachOne(cfg, w, d, permanent, f).0.guests == w1.guests
  {
    var holder := Holder(w, d, d.node.value);
    if holder.None? {
      FinishDrops(cfg, w, w, d, d.node.value, permanent, f);
    } else {
      ReleaseFrame(w, cfg.sockets[holder.value], Get(w.persistent.ports, d.sysName), d, f);
      var w1 := ReleaseFromVm(w, cfg.sockets[holder.value], Get(w.persistent.ports, d.sysName), d, f).0;
      FinishDrops(cfg, w, Log(w1, UsbDetached(d.node.value, holder.value)), d, d.node.value, permanent, f);
    }
  }

  /** The device's records are gone and its mark is as asked. */
  ghost predicate Dropped(w: World, w': World, d: UsbDevice, permanent: bool)
    requires d.node.Some?
  {
    && w'.persistent.ports == Without(w.persistent.ports, d.sysName)
    && w'.persistent.selected == w.persistent.selected
    && w'.persistent.disconnected == Marks.SetDisconnected(w.persistent.disconnected, PersistentId(d), permanent)
    && w'.usbVms == Without(w.usbVms, d.node.value)
    && w'.observedUsb == w.observedUsb
  }

  lemma FinishDrops(cfg: Config, w: World, released: World, d: UsbDevice, node: string, permanent: bool,
                    f: DetachFaults)
    requires d.node == Some(node) && released == w.(guests := released.guests, log := released.log)
    ensures var w' := FinishDetach(cfg, released, d, node, permanent, f).0;
      Dropped(w, w', d, permanent) && w'.guests == released.guests
  {
    FinishDetachShape(cfg, released, d, node, permanent, f);
  }

  /** Forgetting an unplugged device, field by field; a failure changes nothing
      the records depend on. */
  lemma ForgetGoneShape(cfg: Config, w: World, key: string, d: UsbDevice, f: ForgetFaults)
    requires !f.saveFails
    ensures var (w', outcome) := ForgetGone(cfg, w, key, d, f);
      && w'.observedUsb == w.observedUsb
      && (outcome.Done? ==>
            && w'.persistent.ports == Without(w.persistent.ports, key)
            && w'.usbVms == (if d.node.Some? then Without(w.usbVms, d.node.value) else w.usbVms)
            && (key !in w.persistent.ports ==> w'.guests == w.guests)
            && (key in w.persistent.ports ==>
                  && w.persistent.ports[key].vm in cfg.sockets
                  && DropPort(cfg, w, w.persistent.ports[key], f).1.None?
                  && w'.guests == DropPort(cfg, w, w.persistent.ports[key], f).0.guests))
      && (outcome.Failed? ==>
            w'.guests == w.guests && w'.persistent == w.persistent && w'.disk == w.disk && w'.usbVms == w.usbVms)
  {
    if key in w.persistent.ports && w.persistent.ports[key].vm in cfg.sockets {
      DropPortFrame(cfg, w, w.persistent.ports[key], f);
      FinishForgetShape(cfg, DropPort(cfg, w, w.persistent.ports[key], f).0, key, d, f);
    } else {
      FinishForgetShape(cfg, w, key, d, f);
    }
  }

  lemma DropPortFrame(cfg: Config, w: World, binding: Binding, f: ForgetFaults)
    requires binding.vm in cfg.sockets
    ensures var (w1, error) := DropPort(cfg, w, binding, f);
      w1 == w.(guests := w1.guests, log := w1.log) && (error.Some? ==> w1.guests == w.guests)
  {
  }

  lemma FinishForgetShape(cfg: Config, w: World, key: string, d: UsbDevice, f: ForgetFaults)
    ensures var (w', outcome) := FinishForget(cfg, w, key, d, f);
      && w'.guests == w.guests && w'.observedUsb == w.observedUsb
      && w'.persistent == w.persistent.(ports := Without(w.persistent.ports, key))
      && w'.usbVms == (if d.node.Some? then Without(w.usbVms, d.node.value) else w.usbVms)
      && (if SaveFails(cfg, f.saveFails) then outcome.Failed? && w'.disk == w.disk
          else outcome.Done? && w'.disk == if cfg.persistency then w'.persistent else w.disk)
  {
  }

  /** When every save succeeds, recording writes all its records. */
  lemma RecordShape(cfg: Config, w: World, d: UsbDevice, node: string, binding: Binding, changed: bool, f: AttachFaults)
    requires !f.saveSelectFails && !f.saveMarkFails && !f.saveFails
    ensures var g := Record(cfg, w, d, node, binding, changed, f);
      && g.result == Attached && g.committed
      && g.world.guests == w.guests
      && g.world.persistent.ports == w.persistent.ports[d.sysName := binding]
      && g.world.usbVms == w.usbVms[node := binding.vm]
      && g.world.observedUsb == w.observedUsb
      && (cfg.persistency ==> g.world.disk == g.world.persistent)
  {
  }

  lemma NoteVmFrame(w: World, d: UsbDevice, node: string, vm: string)
    requires d.node == Some(node)
    ensures TouchesOnly(w, NoteVm(w, d, node, vm), d)
  {
    UpdateElsewhere(w.usbVms, node, vm);
    UpdateElsewhere(w.persistent.selected, PersistentId(d), vm);
  }

  lemma LiftMarkFrame(w: World, d: UsbDevice)
    ensures TouchesOnly(w, LiftMark(w, d), d)
  {
    MarksFrame(w.persistent.disconnected, PersistentId(d), false);
  }

  lemma NotePortFrame(w: World, d: UsbDevice, binding: Binding)
    requires binding.vid == d.vid && binding.pid == d.pid
    ensures TouchesOnly(w, NotePort(w, d, binding), d)
  {
    UpdateElsewhere(w.persistent.ports, d.sysName, binding);
  }

  lemma StageFrame(cfg: Config, w: World, w': World, d: UsbDevice)
    requires TouchesOnly(w, w', d)
    ensures TouchesOnly(w, Saved(cfg, w', false), d)
  {
  }

  lemma RecordFrame(cfg: Config, w: World, d: UsbDevice, node: string, binding: Binding, changed: bool, f: AttachFaults)
    requires d.node == Some(node) && binding.vid == d.vid && binding.pid == d.pid
    ensures TouchesOnly(w, Record(cfg, w, d, node, binding, changed, f).world, d)
    ensures Record(cfg, w, d, node, binding, changed, f).world.guests == w.guests
  {
    var w1 := NoteVm(w, d, node, binding.vm);
    var w2 := LiftMark(Saved(cfg, w1, false), d);
    var w3 := NotePort(Saved(cfg, w2, false), d, binding);
    RecordStages(cfg, w, w1, w2, w3, d, node, binding, changed);
  }

  lemma RecordStages(cfg: Config, w: World, w1: World, w2: World, w3: World, d: UsbDevice, node: string,
                     binding: Binding, changed: bool)
    requires d.node == Some(node) && binding.vid == d.vid && binding.pid == d.pid
    requires w1 == NoteVm(w, d, node, binding.vm)
    requires w2 == LiftMark(Saved(cfg, w1, false), d)
    requires w3 == NotePort(Saved(cfg, w2, false), d, binding)
    ensures TouchesOnly(w, w1, d) && TouchesOnly(w, w2, d) && TouchesOnly(w, w3, d)
    ensures TouchesOnly(w, Announce(Saved(cfg, w3, false), d, binding.vm, changed), d)
    ensures w1.guests == w.guests && w2.guests == w.guests && w3.guests == w.guests
  {
    NoteVmFrame(w, d, node, binding.vm);
    StageFrame(cfg, w, w1, d);
    LiftMarkFrame(Saved(cfg, w1, false), d);
    TouchesOnlyTransitive(w, Saved(cfg, w1, false), w2, d);
    StageFrame(cfg, w, w2, d);
    NotePortFrame(Saved(cfg, w2, false), d, binding);
    TouchesOnlyTransitive(w, Saved(cfg, w2, false), w3, d);
    StageFrame(cfg, w, w3, d);
    AnnounceFrame(Saved(cfg, w3, false), d, binding.vm, changed);
    TouchesOnlyTransitive(w, Saved(cfg, w3, false), Announce(Saved(cfg, w3, false), d, binding.vm, changed), d);
  }

  lemma AnnounceFrame(w: World, d: UsbDevice, vm: string, changed: bool)
    ensures TouchesOnly(w, Announce(w, d, vm, changed), d)
  {
  }

  lemma AttachFreshFrame(cfg: Config, w: World, d: UsbDevice, node: string, vm: string, socket: string, view: Guest,
                         names: seq<string>, f: AttachFaults)
    requires d.node == Some(node) && view.Live?
    ensures TouchesOnly(w, AttachFresh(cfg, w, d, node, vm, socket, view, names, f).world, d)
  {
    var guest := GuestAt(w, socket);
    if guest.Live? && !f.attach.Refused? && f.attach.port !in guest.ports && f.attach.Taken? {
      var port := f.attach.port;
      var issued := Log(w, UsbAttachCommand(socket, node, BoundDrivers(w.host.drivers, names)));
      var attached := WithPorts(issued, socket, guest.ports[port := f.shown]);
      var stale := StalePort(Get(w.persistent.ports, d.sysName), vm, view);
      var binding := BindingFor(d, vm, port, view.generation);
      GuestsOnlyFrame(w, attached, d);
      SettleFrame(cfg, attached, d, node, socket, stale, binding, f);
      TouchesOnlyTransitive(w, attached, SettleTaken(cfg, attached, d, node, socket, stale, binding, f).world, d);
    } else {
      UntakenShape(cfg, w, d, node, vm, socket, view, names, f);
      GuestsOnlyFrame(w, AttachFresh(cfg, w, d, node, vm, socket, view, names, f).world, d);
    }
  }

  /** An attach that is refused or lost changes ports and the log at most. */
  lemma UntakenShape(cfg: Config, w: World, d: UsbDevice, node: string, vm: string, socket: string, view: Guest,
                     names: seq<string>, f: AttachFaults)
    requires view.Live?
    requires !(GuestAt(w, socket).Live? && !f.attach.Refused? && f.attach.port !in GuestAt(w, socket).ports
               && f.attach.Taken?)
    ensures var w' := AttachFresh(cfg, w, d, node, vm, socket, view, names, f).world;
      && w' == w.(guests := w'.guests, log := w'.log) && SameVms(w.guests, w'.guests)
      && w'.guests == if GuestAt(w, socket).Live? && f.attach.Lost? && f.attach.port !in GuestAt(w, socket).ports
                      then w.guests[socket :=
                             w.guests[socket].(ports := w.guests[socket].ports[f.attach.port := f.shown])]
                      else w.guests
  {
  }

  /** Only USB ports and the log differ. */
  lemma GuestsOnlyFrame(w: World, w': World, d: UsbDevice)
    requires SameVms(w.guests, w'.guests) && w' == w.(guests := w'.guests, log := w'.log)
    ensures TouchesOnly(w, w', d)
  {
  }

  lemma SettleFrame(cfg: Config, w: World, d: UsbDevice, node: string, socket: string, stale: Option<nat>,
                    binding: Binding, f: AttachFaults)
    requires d.node == Some(node) && GuestAt(w, socket).Live? && binding.vid == d.vid && binding.pid == d.pid
    ensures TouchesOnly(w, SettleTaken(cfg, w, d, node, socket, stale, binding, f).world, d)
  {
    var (cleaned, error) := CleanStale(w, socket, stale, binding.port, f.staleFails);
    CleanStaleEffects(w, socket, stale, binding.port, f.staleFails);
    GuestsOnlyFrame(w, cleaned, d);
    RecordFrame(cfg, cleaned, d, node, binding, true, f);
    TouchesOnlyTransitive(w, cleaned, Record(cfg, cleaned, d, node, binding, true, f).world, d);
  }

  /** Preparing an attach changes host drivers and the list of reported hubs only. */
  lemma PrepareFrame(cfg: Config, w: World, d: UsbDevice, f: AttachFaults)
    ensures var w1 := Prepare(cfg, w, d, f).0;
      w1 == w.(host := w.host.(drivers := w1.host.drivers), reportedHubs := w1.reportedHubs)
  {
    var w1 := Prepare(cfg, w, d, f).0;
    assert w1 == w || w1 == WithDrivers(w, w1.host.drivers)
        || w1 == WithDrivers(w, w1.host.drivers).(reportedHubs := w1.reportedHubs);
  }

  /** The drivers an attach leaves: as found, as configured, or as claimed. */
  lemma PreparedDrivers(cfg: Config, w: World, d: UsbDevice, f: AttachFaults)
    ensures var (w1, stop) := Prepare(cfg, w, d, f);
      if f.interfaces.Some? then
        var (drivers, claim) := ClaimInterfaces(Configured(cfg, w, d, f), f.interfaces.value, f.releaseFails);
        (stop.Some? && w1.host.drivers == w.host.drivers)
            || (w1.host.drivers == drivers && (stop.None? <==> claim.Claimed?))
      else stop.Some? && (w1.host.drivers == w.host.drivers || w1.host.drivers == Configured(cfg, w, d, f))
  {
    if f.interfaces.Some? && !(cfg.hasBus && d.sysName !in w.host.drivers && f.probeFails) {
      var (drivers, claim) := ClaimInterfaces(Configured(cfg, w, d, f), f.interfaces.value, f.releaseFails);
      AfterClaimDrivers(WithDrivers(w, drivers), d, claim);
      assert Prepare(cfg, w, d, f) == AfterClaim(WithDrivers(w, drivers), d, claim);
    }
  }

  lemma AfterClaimDrivers(w: World, d: UsbDevice, claim: Claim)
    ensures var (w1, stop) := AfterClaim(w, d, claim);
      w1.host == w.host && (stop.None? <==> claim.Claimed?)
  {
  }

  lemma ConnectFrame(cfg: Config, w: World, d: UsbDevice, node: string, vm: string, socket: string,
                     preflight: Option<Guest>, changed: bool, names: seq<string>, f: AttachFaults)
    requires d.node == Some(node) && (preflight.Some? ==> preflight.value.Live?)
    ensures TouchesOnly(w, Connect(cfg, w, d, node, vm, socket, preflight, changed, names, f).world, d)
  {
    if !(preflight.None? && Listing(GuestAt(w, socket), f.listFails).None?) {
      var view := if preflight.Some? then preflight.value else GuestAt(w, socket);
      var known := Get(w.persistent.ports, d.sysName);
      if Reusable(known, d, vm, view) {
        RecordFrame(cfg, w, d, node, known.value, changed, f);
      } else {
        AttachFreshFrame(cfg, w, d, node, vm, socket, view, names, f);
      }
    }
  }

  lemma ClaimAndConnectFrame(cfg: Config, w: World, d: UsbDevice, node: string, vm: string, socket: string,
                             preflight: Option<Guest>, changed: bool, f: AttachFaults)
    requires d.node == Some(node) && (preflight.Some? ==> preflight.value.Live?)
    ensures TouchesOnly(w, ClaimAndConnect(cfg, w, d, node, vm, socket, preflight, changed, f).world, d)
  {
    var (w1, stop) := Prepare(cfg, w, d, f);
    PrepareFrame(cfg, w, d, f);
    assert TouchesOnly(w, w1, d);
    if stop.None? {
      ConnectFrame(cfg, w1, d, node, vm, socket, preflight, changed, f.interfaces.value, f);
      var g := Connect(cfg, w1, d, node, vm, socket, preflight, changed, f.interfaces.value, f);
      TouchesOnlyTransitive(w, w1, g.world, d);
    }
  }

  lemma UnderGuardFrame(cfg: Config, w: World, d: UsbDevice, node: string, vm: string, socket: string,
                        preflight: Option<Guest>, changed: bool, f: AttachFaults)
    requires d.node == Some(node) && (preflight.Some? ==> preflight.value.Live?)
    ensures TouchesOnly(w, UnderGuard(cfg, w, d, node, vm, socket, preflight, changed, f).0, d)
  {
    var w1 := if Armed(cfg, w, d) then WithAuthorized(w, d.sysName, true, false) else w;
    ClaimAndConnectFrame(cfg, w1, d, node, vm, socket, preflight, changed, f);
    BitOnlyFrame(w, w1, d);
    BitOnlyFrame(w, Drop(w, d, true, f), d);
    var g := ClaimAndConnect(cfg, w1, d, node, vm, socket, preflight, changed, f);
    GuardFrame(w, w1, g, d, Armed(cfg, w, d) && !g.committed, f);
  }

  /** Only the authorized attributes differ. */
  ghost predicate BitOnly(w: World, w': World) {
    w' == w.(host := w.host.(authorized := w'.host.authorized))
  }

  lemma BitOnlyFrame(w: World, w': World, d: UsbDevice)
    requires BitOnly(w, w')
    ensures TouchesOnly(w, w', d)
  {
  }

  lemma GuardFrame(w: World, w1: World, g: Guarded, d: UsbDevice, armed: bool, f: AttachFaults)
    requires TouchesOnly(w, w1, d) && TouchesOnly(w1, g.world, d)
    ensures TouchesOnly(w, Drop(g.world, d, armed, f), d)
  {
    TouchesOnlyTransitive(w, w1, g.world, d);
    BitOnlyFrame(g.world, Drop(g.world, d, armed, f), d);
    TouchesOnlyTransitive(w, g.world, Drop(g.world, d, armed, f), d);
  }

  lemma AttachFrame(cfg: Config, w: World, d: UsbDevice, rule: UsbRule, requested: Option<string>, f: AttachFaults)
    ensures TouchesOnly(w, AttachOne(cfg, w, d, rule, requested, f).0, d)
  {
    var chosen := ChooseVm(w.persistent.selected, PersistentId(d), rule, requested);
    if chosen.None? {
      AskFrame(w, d);
    } else if chosen.value in AllowedVms(rule) && chosen.value in cfg.sockets {
      AttachToFrame(cfg, w, d, chosen.value, f);
    } else {
      BitOnlyFrame(w, w, d);
    }
  }

  lemma AskFrame(w: World, d: UsbDevice)
    ensures TouchesOnly(w, AskForVm(w, d), d)
  {
    var id := PersistentId(d);
    assert (w.pending + {id}) - {id} == w.pending - {id};
    var w' := AskForVm(w, d);
    assert w' == w.(pending := w'.pending, log := w'.log);
  }

  lemma MoveFrame(cfg: Config, w: World, d: UsbDevice, node: string, vm: string, socket: string,
                  preflight: Option<Guest>, f: AttachFaults)
    requires d.node == Some(node) && (preflight.Some? ==> preflight.value.Live?)
    ensures var (w1, moved) := DetachOne(cfg, w, d, false, f.move);
      TouchesOnly(w, w1, d) && TouchesOnly(w, UnderGuard(cfg, w1, d, node, vm, socket, preflight, true, f).0, d)
  {
    var w1 := DetachOne(cfg, w, d, false, f.move).0;
    DetachFrame(cfg, w, d, false, f.move);
    UnderGuardFrame(cfg, w1, d, node, vm, socket, preflight, true, f);
    TouchesOnlyTransitive(w, w1, UnderGuard(cfg, w1, d, node, vm, socket, preflight, true, f).0, d);
  }

  /** The ways through an attach: nothing is done, the device is moved first, or not. */
  lemma AttachToCases(cfg: Config, w: World, d: UsbDevice, vm: string, f: AttachFaults)
    requires vm in cfg.sockets
    ensures var socket, w' := cfg.sockets[vm], AttachTo(cfg, w, d, vm, f).0;
      var preflight := if Preflighted(cfg, d) then Some(GuestAt(w, socket)) else None;
      || w' == w
      || (&& d.node.Some? && (preflight.Some? ==> preflight.value.Live?)
          && var node := d.node.value;
             var w1 := DetachOne(cfg, w, d, false, f.move).0;
             || (MustMove(w, d, vm)
                 && (w' == w1 || w' == UnderGuard(cfg, w1, d, node, vm, socket, preflight, true, f).0))
             || w' == UnderGuard(cfg, w, d, node, vm, socket, preflight, Get(w.usbVms, node) != Some(vm), f).0)
  {
  }

  lemma AttachToFrame(cfg: Config, w: World, d: UsbDevice, vm: string, f: AttachFaults)
    requires vm in cfg.sockets
    ensures TouchesOnly(w, AttachTo(cfg, w, d, vm, f).0, d)
  {
    var guest := GuestAt(w, cfg.sockets[vm]);
    AttachToCases(cfg, w, d, vm, f);
    BitOnlyFrame(w, w, d);
    if d.node.Some? && (Preflighted(cfg, d) ==> guest.Live?) {
      var node := d.node.value;
      var preflight := if Preflighted(cfg, d) then Some(guest) else None;
      MoveFrame(cfg, w, d, node, vm, cfg.sockets[vm], preflight, f);
      UnderGuardFrame(cfg, w, d, node, vm, cfg.sockets[vm], preflight, Get(w.usbVms, node) != Some(vm), f);
    }
  }
}
