/**
 USB authorization on every exit of an attach or a detach, and the drivers a
 claim leaves behind.
 */
module Authorization {
  import opened Prelude
  import opened Crosvm
  import opened World
  import opened UsbSpec
  import opened Frames
  import opened Soundness
  import HostPolicy

  function Bit(w: World, d: UsbDevice): Option<bool> {
    Get(w.host.authorized, d.sysName)
  }

  /** The VM behind the socket lists the device. */
  ghost predicate HeldBy(w: World, socket: string, d: UsbDevice) {
    var guest := GuestAt(w, socket);
    guest.Live? && exists p :: p in guest.ports && Shows(guest.ports[p], d.vid, d.pid)
  }

  /** The host's authorization attributes are as they were. */
  ghost predicate SameBits(w: World, w': World) {
    w'.host.authorized == w.host.authorized
  }

  ghost predicate ClaimedDrivers(drivers: seq<Option<Driver>>) {
    forall i :: 0 <= i < |drivers| ==> drivers[i] == None || drivers[i] == Some(Usbfs)
  }

  /** What an attach or a detach is about: the device, the VM and socket it is
      to go to, and those it is to be taken from. */
  datatype Errand = Errand(
    sysName: string,
    node: Option<string>,
    to: Option<(string, string)>,
    from: Option<(string, string)>)

  ghost predicate Delivers(e: Errand, d: UsbDevice, node: string, vm: string, socket: string) {
    e.sysName == d.sysName && e.node == Some(node) && e.to == Some((vm, socket))
  }

  ghost function ErrandTo(d: UsbDevice, node: string, vm: string, socket: string): Errand {
    Errand(d.sysName, Some(node), Some((vm, socket)), None)
  }

  /** An action of this errand: commands go to its sockets and notifications
      name its VMs, and an attach command finds every interface free or
      already claimed. */
  ghost predicate Fits(e: Errand, action: Action) {
    match action
    case UsbAttachCommand(socket, node, drivers) =>
      e.to.Some? && socket == e.to.value.1 && Some(node) == e.node && ClaimedDrivers(drivers)
    case UsbDetachCommand(socket, _) =>
      (e.to.Some? && socket == e.to.value.1) || (e.from.Some? && socket == e.from.value.1)
    case UsbAttached(sysName, vm) => e.to.Some? && sysName == e.sysName && vm == e.to.value.0
    case UsbDetached(node, vm) => e.from.Some? && Some(node) == e.node && vm == e.from.value.0
    case _ => false
  }

  /** The log went on from `log` with actions of the errand only. */
  ghost predicate Follows(e: Errand, log: seq<Action>, log': seq<Action>)
    decreases |log'|
  {
    log' == log || (|log| < |log'| && Fits(e, log'[|log'| - 1]) && Follows(e, log, log'[..|log'| - 1]))
  }

  lemma FollowsStep(e: Errand, log: seq<Action>, log': seq<Action>, action: Action)
    requires Follows(e, log, log') && Fits(e, action)
    ensures Follows(e, log, log' + [action])
  {
    assert (log' + [action])[..|log'|] == log';
  }

  lemma {:induction false} FollowsTransitive(e: Errand, a: seq<Action>, b: seq<Action>, c: seq<Action>)
    requires Follows(e, a, b) && Follows(e, b, c)
    ensures Follows(e, a, c)
    decreases |c|
  {
    if c != b {
      FollowsTransitive(e, a, b, c[..|c| - 1]);
    }
  }

  lemma {:induction false} FollowsMeans(e: Errand, log: seq<Action>, log': seq<Action>)
    requires Follows(e, log, log')
    ensures log <= log' && forall i :: |log| <= i < |log'| ==> Fits(e, log'[i])
    decreases |log'|
  {
    if log' != log {
      FollowsMeans(e, log, log'[..|log'| - 1]);
      assert log' == log'[..|log'| - 1] + [log'[|log'| - 1]];
    }
  }

  /** A detach that is part of a move is part of its errand. */
  lemma {:induction false} FollowsWithin(e: Errand, whole: Errand, log: seq<Action>, log': seq<Action>)
    requires Follows(e, log, log') && e.to == None && e.node == whole.node && (e.from == None || e.from == whole.from)
    ensures Follows(whole, log, log')
    decreases |log'|
  {
    if log' != log {
      FollowsWithin(e, whole, log, log'[..|log'| - 1]);
    }
  }

  // ----- detaching -----

  lemma ReleaseKeepsBits(w: World, socket: string, binding: Option<Binding>, d: UsbDevice, f: DetachFaults)
    ensures SameBits(w, ReleaseFromVm(w, socket, binding, d, f).0)
  {
    ReleaseFrame(w, socket, binding, d, f);
  }

  lemma FinishDetachBit(cfg: Config, w: World, d: UsbDevice, node: string, permanent: bool, f: DetachFaults)
    requires cfg.authorization && !d.hub && !f.deauthorizeFails
    ensures var (w', outcome) := FinishDetach(cfg, w, d, node, permanent, f);
      && Bit(w', d) != Some(true) && (Bit(w, d).None? ==> Bit(w', d).None?)
      && (outcome.Done? || outcome.error == SaveFailed)
  {
  }

  /** A release never fails for want of a save. */
  lemma ReleaseErrors(w: World, socket: string, binding: Option<Binding>, d: UsbDevice, f: DetachFaults)
    ensures ReleaseFromVm(w, socket, binding, d, f).1 != Some(SaveFailed)
  {
  }

  /** A detach that fails before it updates its records leaves the device's
      authorization alone; one that reaches them leaves the device
      unauthorized, even when saving the state then fails. */
  lemma DetachAuthorization(cfg: Config, w: World, d: UsbDevice, permanent: bool, f: DetachFaults)
    requires cfg.authorization && !d.hub && !f.deauthorizeFails
    ensures var (w', outcome) := DetachOne(cfg, w, d, permanent, f);
      if outcome.Done? || outcome.error == SaveFailed then Bit(w', d) != Some(true) else Bit(w', d) == Bit(w, d)
    ensures Bit(w, d).None? ==> Bit(DetachOne(cfg, w, d, permanent, f).0, d).None?
  {
    if d.node.Some? {
      var node := d.node.value;
      var holder := Holder(w, d, node);
      if holder.None? {
        FinishDetachBit(cfg, w, d, node, permanent, f);
      } else if holder.value in cfg.sockets {
        var (w1, error) := ReleaseFromVm(w, cfg.sockets[holder.value], Get(w.persistent.ports, d.sysName), d, f);
        ReleaseKeepsBits(w, cfg.sockets[holder.value], Get(w.persistent.ports, d.sysName), d, f);
        ReleaseErrors(w, cfg.sockets[holder.value], Get(w.persistent.ports, d.sysName), d, f);
        FinishDetachBit(cfg, Log(w1, UsbDetached(node, holder.value)), d, node, permanent, f);
      }
    }
  }

  // ----- attaching -----

  lemma RecordEffects(cfg: Config, w: World, d: UsbDevice, node: string, binding: Binding, changed: bool,
                      f: AttachFaults, e: Errand)
    requires e.to.Some? && Delivers(e, d, node, binding.vm, e.to.value.1)
    ensures var w' := Record(cfg, w, d, node, binding, changed, f).world;
      w'.guests == w.guests && w'.host == w.host && Follows(e, w.log, w'.log)
  {
    FollowsStep(e, w.log, w.log, UsbAttached(d.sysName, binding.vm));
  }

  lemma CleanStaleFollows(w: World, socket: string, stale: Option<nat>, port: nat, fails: bool, e: Errand)
    requires GuestAt(w, socket).Live? && e.to.Some? && e.to.value.1 == socket
    ensures Follows(e, w.log, CleanStale(w, socket, stale, port, fails).0.log)
  {
    CleanStaleEffects(w, socket, stale, port, fails);
    if stale.Some? {
      FollowsStep(e, w.log, w.log, UsbDetachCommand(socket, stale.value));
    }
  }

  /** What happens between Crosvm's answer and the records. */
  lemma TakenEffects(cfg: Config, w: World, d: UsbDevice, node: string, socket: string, stale: Option<nat>,
                     binding: Binding, f: AttachFaults, e: Errand)
    requires GuestAt(w, socket).Live? && binding.port in GuestAt(w, socket).ports
    requires Delivers(e, d, node, binding.vm, socket)
    ensures var last, port := SettleTaken(cfg, w, d, node, socket, stale, binding, f).world, binding.port;
      && last.host == w.host
      && Follows(e, w.log, last.log)
      && GuestAt(last, socket).Live? && port in GuestAt(last, socket).ports
      && GuestAt(last, socket).ports[port] == GuestAt(w, socket).ports[port]
  {
    var (cleaned, error) := CleanStale(w, socket, stale, binding.port, f.staleFails);
    CleanStaleEffects(w, socket, stale, binding.port, f.staleFails);
    CleanStaleFollows(w, socket, stale, binding.port, f.staleFails, e);
    RecordedFollows(cfg, w, cleaned, d, node, binding, f, e);
  }

  lemma RecordedFollows(cfg: Config, w: World, cleaned: World, d: UsbDevice, node: string, binding: Binding,
                        f: AttachFaults, e: Errand)
    requires e.to.Some? && Delivers(e, d, node, binding.vm, e.to.value.1) && Follows(e, w.log, cleaned.log)
    ensures var w' := Record(cfg, cleaned, d, node, binding, true, f).world;
      w'.guests == cleaned.guests && w'.host == cleaned.host && Follows(e, w.log, w'.log)
  {
    RecordEffects(cfg, cleaned, d, node, binding, true, f, e);
    FollowsTransitive(e, w.log, cleaned.log, Record(cfg, cleaned, d, node, binding, true, f).world.log);
  }

  /** A fresh attach issues one attach command, after which the VM keeps the
      new port whatever else goes wrong. */
  lemma FreshEffects(cfg: Config, w: World, d: UsbDevice, node: string, vm: string, socket: string, view: Guest,
                     names: seq<string>, f: AttachFaults, e: Errand)
    requires view.Live? && Delivers(e, d, node, vm, socket)
    ensures var g := AttachFresh(cfg, w, d, node, vm, socket, view, names, f);
      && g.world.host == w.host
      && (ClaimedDrivers(BoundDrivers(w.host.drivers, names)) ==> Follows(e, w.log, g.world.log))
      && (g.committed && Shows(f.shown, d.vid, d.pid) ==> HeldBy(g.world, socket, d))
      && (g.committed ==> !f.attach.Refused?)
  {
    var guest := GuestAt(w, socket);
    var command := UsbAttachCommand(socket, node, BoundDrivers(w.host.drivers, names));
    if f.attach.Taken? && guest.Live? && f.attach.port !in guest.ports {
      var port := f.attach.port;
      var attached := WithPorts(Log(w, command), socket, guest.ports[port := f.shown]);
      var stale := StalePort(Get(w.persistent.ports, d.sysName), vm, view);
      TakenEffects(cfg, attached, d, node, socket, stale, BindingFor(d, vm, port, view.generation), f, e);
    }
    if ClaimedDrivers(BoundDrivers(w.host.drivers, names)) {
      IssuedFollows(e, w.log, AttachFresh(cfg, w, d, node, vm, socket, view, names, f).world.log, command);
    }
  }

  lemma IssuedFollows(e: Errand, log: seq<Action>, log': seq<Action>, command: Action)
    requires Fits(e, command) && (log' == log + [command] || Follows(e, log + [command], log'))
    ensures Follows(e, log, log')
  {
    FollowsStep(e, log, log, command);
    FollowsTransitive(e, log, log + [command], log');
  }

  lemma ConnectEffects(cfg: Config, w: World, d: UsbDevice, node: string, vm: string, socket: string,
                       preflight: Option<Guest>, changed: bool, names: seq<string>, f: AttachFaults, e: Errand)
    requires (preflight.Some? ==> preflight.value.Live?) && Delivers(e, d, node, vm, socket)
    ensures var g := Connect(cfg, w, d, node, vm, socket, preflight, changed, names, f);
      && g.world.host == w.host
      && (ClaimedDrivers(BoundDrivers(w.host.drivers, names)) ==> Follows(e, w.log, g.world.log))
  {
    if !(preflight.None? && Listing(GuestAt(w, socket), f.listFails).None?) {
      var view := if preflight.Some? then preflight.value else GuestAt(w, socket);
      var known := Get(w.persistent.ports, d.sysName);
      if Reusable(known, d, vm, view) {
        RecordEffects(cfg, w, d, node, known.value, changed, f, e);
      } else {
        FreshEffects(cfg, w, d, node, vm, socket, view, names, f, e);
      }
    }
  }

  lemma ReusedMeansHeld(cfg: Config, w: World, d: UsbDevice, node: string, vm: string, socket: string, known: Binding,
                        changed: bool, f: AttachFaults)
    requires GuestAt(w, socket).Live? && Reusable(Some(known), d, vm, GuestAt(w, socket))
    ensures HeldBy(Record(cfg, w, d, node, known, changed, f).world, socket, d)
  {
    RecordEffects(cfg, w, d, node, known, changed, f, ErrandTo(d, node, vm, socket));
    assert Shows(GuestAt(w, socket).ports[known.port], d.vid, d.pid);
  }

  /** The guard is committed only once the VM lists the device. */
  lemma CommittedMeansHeld(cfg: Config, w: World, d: UsbDevice, node: string, vm: string, socket: string,
                           preflight: Option<Guest>, changed: bool, names: seq<string>, f: AttachFaults)
    requires preflight.Some? ==>
               preflight.value.Live? && (preflight.value == GuestAt(w, socket) || d.sysName !in w.persistent.ports)
    requires HonestAttach(d, f)
    ensures var g := Connect(cfg, w, d, node, vm, socket, preflight, changed, names, f);
      g.committed ==> HeldBy(g.world, socket, d)
  {
    if !(preflight.None? && Listing(GuestAt(w, socket), f.listFails).None?) {
      var view := if preflight.Some? then preflight.value else GuestAt(w, socket);
      var known := Get(w.persistent.ports, d.sysName);
      if Reusable(known, d, vm, view) {
        assert view == GuestAt(w, socket);
        ReusedMeansHeld(cfg, w, d, node, vm, socket, known.value, changed, f);
      } else {
        FreshEffects(cfg, w, d, node, vm, socket, view, names, f, ErrandTo(d, node, vm, socket));
      }
    }
  }

  /** What one pass through the guard does to the bit. */
  ghost predicate GuardIsRight(w: World, w': World, d: UsbDevice, socket: string, committed: bool) {
    if committed then Bit(w', d) == Some(true) && HeldBy(w', socket, d) else Bit(w', d) == Bit(w, d)
  }

  lemma ClaimAndConnectBit(cfg: Config, w: World, d: UsbDevice, node: string, vm: string, socket: string,
                           preflight: Option<Guest>, changed: bool, f: AttachFaults)
    requires preflight.Some? ==>
               preflight.value.Live? && (preflight.value == GuestAt(w, socket) || d.sysName !in w.persistent.ports)
    requires HonestAttach(d, f)
    ensures var g := ClaimAndConnect(cfg, w, d, node, vm, socket, preflight, changed, f);
      SameBits(w, g.world) && (g.committed ==> HeldBy(g.world, socket, d))
  {
    var (w1, stop) := Prepare(cfg, w, d, f);
    PrepareFrame(cfg, w, d, f);
    if stop.None? {
      ConnectEffects(cfg, w1, d, node, vm, socket, preflight, changed, f.interfaces.value, f,
                     ErrandTo(d, node, vm, socket));
      CommittedMeansHeld(cfg, w1, d, node, vm, socket, preflight, changed, f.interfaces.value, f);
    }
  }

  lemma DropRestores(w: World, g: Guarded, d: UsbDevice, socket: string, armed: bool, f: AttachFaults)
    requires !f.rollbackFails
    requires armed <==> Bit(w, d) != Some(true)
    requires armed ==> d.sysName in w.host.authorized
    requires Bit(g.world, d) == Some(true)
    requires g.committed ==> HeldBy(g.world, socket, d)
    ensures GuardIsRight(w, Drop(g.world, d, armed && !g.committed, f), d, socket, g.committed)
  {
    assert armed ==> !w.host.authorized[d.sysName];
    assert HeldBy(g.world, socket, d) ==> HeldBy(Drop(g.world, d, armed && !g.committed, f), socket, d);
  }

  lemma UnderGuardBit(cfg: Config, w: World, d: UsbDevice, node: string, vm: string, socket: string,
                      preflight: Option<Guest>, changed: bool, f: AttachFaults)
    requires cfg.authorization && !d.hub && !f.rollbackFails
    requires preflight.Some? ==>
               preflight.value.Live? && (preflight.value == GuestAt(w, socket) || d.sysName !in w.persistent.ports)
    requires HonestAttach(d, f)
    ensures GuardIsRight(w, UnderGuard(cfg, w, d, node, vm, socket, preflight, changed, f).0, d, socket,
                         Commits(cfg, w, d, node, vm, socket, preflight, changed, f))
  {
    var armed := Armed(cfg, w, d);
    if !(armed && (d.sysName !in w.host.authorized || f.authorizeFails)) {
      var w1 := if armed then WithAuthorized(w, d.sysName, true, false) else w;
      ClaimAndConnectBit(cfg, w1, d, node, vm, socket, preflight, changed, f);
      DropRestores(w, ClaimAndConnect(cfg, w1, d, node, vm, socket, preflight, changed, f), d, socket, armed, f);
    } else {
      assert d.sysName in w.host.authorized ==> !w.host.authorized[d.sysName];
    }
  }

  /** Every exit of an attach leaves the bit in one of three ways. Where the
      guard was committed it is set, and the target VM holds the device. Where
      it was not, the bit is as it was; only if another VM had to give the
      device up first may it have been withdrawn. */
  lemma AttachAuthorization(cfg: Config, w: World, d: UsbDevice, vm: string, f: AttachFaults)
    requires cfg.authorization && !d.hub && vm in cfg.sockets
    requires !f.rollbackFails && (MustMove(w, d, vm) ==> !f.move.deauthorizeFails)
    requires HonestAttach(d, f)
    ensures var w' := AttachTo(cfg, w, d, vm, f).0;
      if AttachCommits(cfg, w, d, vm, f) then Bit(w', d) == Some(true) && HeldBy(w', cfg.sockets[vm], d)
      else Bit(w', d) == Bit(w, d) || (MustMove(w, d, vm) && Bit(w', d) != Some(true))
  {
    var socket := cfg.sockets[vm];
    var guest := GuestAt(w, socket);
    if d.node.Some? && guest.Live? && !f.preflightFails {
      var node := d.node.value;
      var preflight := Some(guest);
      var current := Get(w.usbVms, node);
      if current.Some? && current.value != vm {
        var (w1, moved) := DetachOne(cfg, w, d, false, f.move);
        DetachAuthorization(cfg, w, d, false, f.move);
        if moved.Done? {
          DetachDoneShape(cfg, w, d, false, f.move);
          UnderGuardBit(cfg, w1, d, node, vm, socket, preflight, true, f);
        }
      } else {
        UnderGuardBit(cfg, w, d, node, vm, socket, preflight, current != Some(vm), f);
      }
    }
  }

  /** The guard is committed only if Crosvm reports a port it gave the device
      now, or the manager finds the device at the port on record. */
  lemma CommitMeansTaken(cfg: Config, w: World, d: UsbDevice, node: string, vm: string, socket: string,
                         preflight: Option<Guest>, changed: bool, f: AttachFaults)
    requires preflight.Some? ==> preflight.value.Live?
    requires Commits(cfg, w, d, node, vm, socket, preflight, changed, f)
    ensures f.attach.Taken? ||
              Reusable(Get(w.persistent.ports, d.sysName), d, vm, if preflight.Some? then preflight.value
                       else GuestAt(w, socket))
  {
    var w1 := if Armed(cfg, w, d) then WithAuthorized(w, d.sysName, true, false) else w;
    var (w2, stop) := Prepare(cfg, w1, d, f);
    PrepareFrame(cfg, w1, d, f);
    if stop.None? {
      var names := f.interfaces.value;
      assert Connect(cfg, w2, d, node, vm, socket, preflight, changed, names, f).committed;
      ConnectCommits(cfg, w2, d, node, vm, socket, preflight, changed, names, f);
    }
  }

  lemma ConnectCommits(cfg: Config, w: World, d: UsbDevice, node: string, vm: string, socket: string,
                       preflight: Option<Guest>, changed: bool, names: seq<string>, f: AttachFaults)
    requires preflight.Some? ==> preflight.value.Live?
    requires Connect(cfg, w, d, node, vm, socket, preflight, changed, names, f).committed
    ensures var view := if preflight.Some? then preflight.value else GuestAt(w, socket);
      view.Live? && (f.attach.Taken? || Reusable(Get(w.persistent.ports, d.sysName), d, vm, view))
  {
  }

  /** If Crosvm never took the device, did not have it on record, and no move
      came first, the attach leaves the bit at its entry value, even where the
      VM lists a device with the same numbers already. */
  lemma UntakenAttachRestores(cfg: Config, w: World, d: UsbDevice, vm: string, f: AttachFaults)
    requires cfg.authorization && !d.hub && vm in cfg.sockets && !MustMove(w, d, vm)
    requires !f.rollbackFails && HonestAttach(d, f) && !f.attach.Taken?
    requires var guest := GuestAt(w, cfg.sockets[vm]); guest.Live? ==>
        !Reusable(Get(w.persistent.ports, d.sysName), d, vm, guest)
    ensures Bit(AttachTo(cfg, w, d, vm, f).0, d) == Bit(w, d)
  {
    AttachAuthorization(cfg, w, d, vm, f);
    if AttachCommits(cfg, w, d, vm, f) {
      var socket := cfg.sockets[vm];
      CommitMeansTaken(cfg, w, d, d.node.value, vm, socket, Some(GuestAt(w, socket)),
                       Get(w.usbVms, d.node.value) != Some(vm), f);
    }
  }

  // ----- the claim -----

  /** Only host drivers are ever taken off: a VM's own claim and a hub stay. */
  lemma {:induction false} ClaimReleasesHostDriversOnly(drivers: map<string, Driver>, names: seq<string>,
                                                        fails: set<string>)
    ensures var (drivers', claim) := ClaimInterfaces(drivers, names, fails);
      && (forall n :: Get(drivers', n) != Get(drivers, n) ==>
            n in names && n in drivers && drivers[n].HostDriver? && n !in drivers')
      && (claim == Claimed ==> forall n :: n in names ==> n in drivers' ==> drivers'[n] == Usbfs)
      && (claim == IsHub ==> exists n :: n in names && n in drivers && drivers[n] == HubDriver)
  {
    if names != [] {
      var name := names[0];
      if name !in drivers || drivers[name].Usbfs? {
        ClaimReleasesHostDriversOnly(drivers, names[1..], fails);
      } else if drivers[name].HostDriver? && name !in fails {
        ClaimReleasesHostDriversOnly(Without(drivers, name), names[1..], fails);
      }
    }
  }

  lemma FinishDetachLog(cfg: Config, w: World, d: UsbDevice, node: string, permanent: bool, f: DetachFaults)
    ensures FinishDetach(cfg, w, d, node, permanent, f).0.log == w.log
  {
  }

  /** The VM a detach goes to: the remembered holder, or the one on record. */
  ghost function DetachErrand(cfg: Config, w: World, d: UsbDevice): Errand {
    var holder := if d.node.Some? then Holder(w, d, d.node.value) else None;
    Errand(d.sysName, d.node, None,
           if holder.Some? && holder.value in cfg.sockets then Some((holder.value, cfg.sockets[holder.value]))
           else None)
  }

  lemma DetachFollows(cfg: Config, w: World, d: UsbDevice, permanent: bool, f: DetachFaults)
    ensures Follows(DetachErrand(cfg, w, d), w.log, DetachOne(cfg, w, d, permanent, f).0.log)
  {
    var e := DetachErrand(cfg, w, d);
    if d.node.Some? {
      var node := d.node.value;
      var holder := Holder(w, d, node);
      if holder.None? {
        FinishDetachLog(cfg, w, d, node, permanent, f);
      } else if holder.value in cfg.sockets {
        var w1 := ReleaseFromVm(w, cfg.sockets[holder.value], Get(w.persistent.ports, d.sysName), d, f).0;
        ReleaseFollows(w, cfg.sockets[holder.value], Get(w.persistent.ports, d.sysName), d, f, e);
        FollowsStep(e, w.log, w1.log, UsbDetached(node, holder.value));
        FinishDetachLog(cfg, Log(w1, UsbDetached(node, holder.value)), d, node, permanent, f);
      }
    }
  }

  lemma ReleaseFollows(w: World, socket: string, binding: Option<Binding>, d: UsbDevice, f: DetachFaults, e: Errand)
    requires e.from.Some? && e.from.value.1 == socket
    ensures Follows(e, w.log, ReleaseFromVm(w, socket, binding, d, f).0.log)
  {
    var guest := GuestAt(w, socket);
    if guest.Live? {
      var release := PortToRelease(guest.ports, guest.generation, binding, d);
      if release.Ok? && release.value.Some? {
        FollowsStep(e, w.log, w.log, UsbDetachCommand(socket, release.value.value));
      }
    }
  }

  lemma PreparedIsClaimed(cfg: Config, w: World, d: UsbDevice, f: AttachFaults)
    ensures var (w1, stop) := Prepare(cfg, w, d, f);
      w1.log == w.log && (stop.None? ==> ClaimedDrivers(BoundDrivers(w1.host.drivers, f.interfaces.value)))
  {
    PrepareFrame(cfg, w, d, f);
    PreparedDrivers(cfg, w, d, f);
    if f.interfaces.Some? {
      var before := Configured(cfg, w, d, f);
      ClaimedAreFree(before, f.interfaces.value, f.releaseFails);
    }
  }

  lemma ClaimedAreFree(drivers: map<string, Driver>, names: seq<string>, fails: set<string>)
    ensures var (drivers', claim) := ClaimInterfaces(drivers, names, fails);
      claim.Claimed? ==> ClaimedDrivers(BoundDrivers(drivers', names))
  {
    ClaimReleasesHostDriversOnly(drivers, names, fails);
  }

  lemma ClaimAndConnectFollows(cfg: Config, w: World, d: UsbDevice, node: string, vm: string, socket: string,
                               preflight: Option<Guest>, changed: bool, f: AttachFaults, e: Errand)
    requires (preflight.Some? ==> preflight.value.Live?) && Delivers(e, d, node, vm, socket)
    ensures Follows(e, w.log, ClaimAndConnect(cfg, w, d, node, vm, socket, preflight, changed, f).world.log)
  {
    var (w1, stop) := Prepare(cfg, w, d, f);
    PreparedIsClaimed(cfg, w, d, f);
    if stop.None? {
      ConnectEffects(cfg, w1, d, node, vm, socket, preflight, changed, f.interfaces.value, f, e);
    }
  }

  lemma UnderGuardFollows(cfg: Config, w: World, d: UsbDevice, node: string, vm: string, socket: string,
                          preflight: Option<Guest>, changed: bool, f: AttachFaults, e: Errand)
    requires (preflight.Some? ==> preflight.value.Live?) && Delivers(e, d, node, vm, socket)
    ensures Follows(e, w.log, UnderGuard(cfg, w, d, node, vm, socket, preflight, changed, f).0.log)
  {
    var w1 := if Armed(cfg, w, d) then WithAuthorized(w, d.sysName, true, false) else w;
    ClaimAndConnectFollows(cfg, w1, d, node, vm, socket, preflight, changed, f, e);
  }

  /** To the VM asked for, and from the one that is remembered, if it is another. */
  ghost function AttachErrand(cfg: Config, w: World, d: UsbDevice, vm: string): Errand
    requires vm in cfg.sockets
  {
    Errand(d.sysName, d.node, Some((vm, cfg.sockets[vm])),
           if MustMove(w, d, vm) && w.usbVms[d.node.value] in cfg.sockets
           then Some((w.usbVms[d.node.value], cfg.sockets[w.usbVms[d.node.value]])) else None)
  }

  lemma AttachToFollows(cfg: Config, w: World, d: UsbDevice, vm: string, f: AttachFaults)
    requires vm in cfg.sockets
    ensures Follows(AttachErrand(cfg, w, d, vm), w.log, AttachTo(cfg, w, d, vm, f).0.log)
  {
    var e := AttachErrand(cfg, w, d, vm);
    var guest := GuestAt(w, cfg.sockets[vm]);
    AttachToCases(cfg, w, d, vm, f);
    if d.node.Some? && (Preflighted(cfg, d) ==> guest.Live?) {
      var node := d.node.value;
      var preflight := if Preflighted(cfg, d) then Some(guest) else None;
      if MustMove(w, d, vm) {
        MoveFollows(cfg, w, d, node, vm, cfg.sockets[vm], preflight, f, e);
      }
      UnderGuardFollows(cfg, w, d, node, vm, cfg.sockets[vm], preflight, Get(w.usbVms, node) != Some(vm), f, e);
    }
  }

  lemma MoveFollows(cfg: Config, w: World, d: UsbDevice, node: string, vm: string, socket: string,
                    preflight: Option<Guest>, f: AttachFaults, e: Errand)
    requires (preflight.Some? ==> preflight.value.Live?) && d.node == Some(node) && vm in cfg.sockets
    requires cfg.sockets[vm] == socket && e == AttachErrand(cfg, w, d, vm) && MustMove(w, d, vm)
    ensures var w1 := DetachOne(cfg, w, d, false, f.move).0;
      && Follows(e, w.log, w1.log)
      && Follows(e, w.log, UnderGuard(cfg, w1, d, node, vm, socket, preflight, true, f).0.log)
  {
    var w1 := DetachOne(cfg, w, d, false, f.move).0;
    DetachFollows(cfg, w, d, false, f.move);
    FollowsWithin(DetachErrand(cfg, w, d), e, w.log, w1.log);
    UnderGuardFollows(cfg, w1, d, node, vm, socket, preflight, true, f, e);
    FollowsTransitive(e, w.log, w1.log, UnderGuard(cfg, w1, d, node, vm, socket, preflight, true, f).0.log);
  }

  /** Whenever an attach is issued, no interface of the device has a host
      driver: each is free or already claimed through usbfs. */
  lemma AttachClaims(cfg: Config, w: World, d: UsbDevice, rule: UsbRule, requested: Option<string>, f: AttachFaults)
    ensures var log' := AttachOne(cfg, w, d, rule, requested, f).0.log;
      && w.log <= log'
      && forall i :: |w.log| <= i < |log'| && log'[i].UsbAttachCommand? ==> ClaimedDrivers(log'[i].drivers)
  {
    var chosen := ChooseVm(w.persistent.selected, PersistentId(d), rule, requested);
    if chosen.Some? && chosen.value in cfg.sockets {
      AttachToFollows(cfg, w, d, chosen.value, f);
      FollowsMeans(AttachErrand(cfg, w, d, chosen.value), w.log, AttachTo(cfg, w, d, chosen.value, f).0.log);
    }
  }

  // ----- the sweep and what a VM holds -----

  const SWEPT_CONFIG: Config := Config(map["a" := "sa"], true, true, true)
  const SWEPT_DEVICE: UsbDevice := UsbDevice("1-2", Some("n2"), Some("v2"), Some("p2"), None, false)
  const SWEPT_RECORD: Persistent := Persistent(map[], [],
                                               map["1-2" := Binding("a", 0, 1, Some("v1"), Some("p1"), None)])
  const SWEPT_WORLD: World := World(
    SWEPT_RECORD, SWEPT_RECORD, map[], map[], {}, map[], {}, {}, false, map[],
    map["sa" := Live(1, map[0 := Ident("v1", "p1")], {})],
    Host(map["1-2" := false], map["1-2" := HostDriver("usb")], map[]), [], [])
  const SWEPT_FAULTS: AttachFaults := AttachFaults(
    false, DetachFaults(false, false, false, false, false), false, false, false, map[], Some([]), {}, false,
    Taken(1), Ident("v2", "p2"), true, false, false, false)

  /** Crosvm takes a device plugged in where another was before, but the stale
      port cannot be given back: the guard is committed, the VM lists the
      device, and its node is not remembered. The sweep of the same pass then
      withdraws the authorization under the running VM. */
  lemma SweepCanWithdrawHeld(s: HostPolicy.HostScan)
    requires s.devices == [SWEPT_DEVICE] && !s.hostAllowed(SWEPT_DEVICE) && s.fails == {}
    ensures Inv(SWEPT_CONFIG, SWEPT_WORLD)
    ensures AttachCommits(SWEPT_CONFIG, SWEPT_WORLD, SWEPT_DEVICE, "a", SWEPT_FAULTS)
    ensures var w := AttachTo(SWEPT_CONFIG, SWEPT_WORLD, SWEPT_DEVICE, "a", SWEPT_FAULTS).0;
      var (w', ok) := HostPolicy.SweepAll(w, s.devices, s);
      && Bit(w, SWEPT_DEVICE) == Some(true) && HeldBy(w, "sa", SWEPT_DEVICE)
      && ok && Bit(w', SWEPT_DEVICE) == Some(false) && HeldBy(w', "sa", SWEPT_DEVICE)
  {
    var cfg, w, d, f := SWEPT_CONFIG, SWEPT_WORLD, SWEPT_DEVICE, SWEPT_FAULTS;
    assert Truthful(cfg, w.guests, w.persistent.ports["1-2"]);
    StaleAttachCommits();
    AttachAuthorization(cfg, w, d, "a", f);
    var w1 := AttachTo(cfg, w, d, "a", f).0;
    assert s.devices[..0] == [];
    assert HostPolicy.SweepAll(w1, s.devices, s) == HostPolicy.SweepOne(w1, d, s);
    assert d in s.devices;
    HostPolicy.SweepWithdrawsIff(w1, s.devices, s, d);
  }

  lemma StaleAttachCommits()
    ensures AttachCommits(SWEPT_CONFIG, SWEPT_WORLD, SWEPT_DEVICE, "a", SWEPT_FAULTS)
    ensures AttachTo(SWEPT_CONFIG, SWEPT_WORLD, SWEPT_DEVICE, "a", SWEPT_FAULTS).0.usbVms == map[]
  {
    var cfg, w, d, f := SWEPT_CONFIG, SWEPT_WORLD, SWEPT_DEVICE, SWEPT_FAULTS;
    var w1 := WithAuthorized(w, d.sysName, true, false);
    var view := GuestAt(w1, "sa");
    assert "v1"[1] != "v2"[1];
    assert ClaimInterfaces(w1.host.drivers, [], {}) == (w1.host.drivers, Claimed);
    var (w2, stop) := Prepare(cfg, w1, d, f);
    assert w2 == w1 && stop == None;
    var known := Get(w1.persistent.ports, d.sysName);
    assert !Reusable(known, d, "a", view) && StalePort(known, "a", view) == Some(0);
    var g := AttachFresh(cfg, w1, d, "n2", "a", "sa", view, [], f);
    assert g.committed && g.world.usbVms == map[];
    assert Connect(cfg, w1, d, "n2", "a", "sa", Some(view), true, [], f) == g;
    assert ClaimAndConnect(cfg, w1, d, "n2", "a", "sa", Some(view), true, f) == g;
  }
}
