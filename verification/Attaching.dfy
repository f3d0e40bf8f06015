/**
 What an attach does, told from outside: exactly when it succeeds, when it
 asks the VM, when it announces itself, and that a refused one records nothing.
 */
module Attaching {
  import opened Prelude
  import opened World
  import opened UsbSpec
  import opened Frames
  import SuspendResume

  // ----- the log -----

  /** The VM was asked to take a device. */
  ghost predicate Asked(log: seq<Action>, log': seq<Action>) {
    log <= log' && exists i :: |log| <= i < |log'| && log'[i].UsbAttachCommand?
  }

  ghost predicate Announced(log: seq<Action>, log': seq<Action>, d: UsbDevice, vm: string) {
    log <= log' && exists i :: |log| <= i < |log'| && log'[i] == UsbAttached(d.sysName, vm)
  }

  ghost predicate News(log: seq<Action>, log': seq<Action>, d: UsbDevice, vm: string, asked: bool, announced: bool) {
    log <= log' && (Asked(log, log') <==> asked) && (Announced(log, log', d, vm) <==> announced)
  }

  lemma NoNews(log: seq<Action>, d: UsbDevice, vm: string)
    ensures News(log, log, d, vm, false, false)
  {
  }

  lemma NewsGoOn(log: seq<Action>, log': seq<Action>, d: UsbDevice, vm: string, asked: bool, announced: bool,
                 action: Action)
    requires News(log, log', d, vm, asked, announced)
    ensures News(log, log' + [action], d, vm, asked || action.UsbAttachCommand?,
                 announced || action == UsbAttached(d.sysName, vm))
  {
    var longer := log' + [action];
    assert forall i :: 0 <= i < |log'| ==> longer[i] == log'[i];
    assert longer[|log'|] == action;
  }

  // ----- when an attach succeeds -----

  /** The record describes this very device, at a port the VM lists for it. */
  ghost predicate Described(known: Option<Binding>, d: UsbDevice, vm: string, view: Guest) {
    && known.Some? && view.Live?
    && known.value.vm == vm && known.value.generation == view.generation
    && known.value.vid == d.vid && known.value.pid == d.pid && known.value.serial == d.serial
    && known.value.port in view.ports && Shows(view.ports[known.value.port], d.vid, d.pid)
  }

  /** An earlier device of this name still sits at this port. */
  ghost predicate LeftOver(known: Option<Binding>, vm: string, view: Guest, port: nat) {
    && known.Some? && view.Live?
    && known.value.vm == vm && known.value.generation == view.generation && known.value.port == port
    && port in view.ports && Shows(view.ports[port], known.value.vid, known.value.pid)
  }

  /** The VM takes the device at a port that was free, and what is left of an
      earlier one can be returned. */
  ghost predicate Takes(guest: Guest, known: Option<Binding>, vm: string, view: Guest, f: AttachFaults) {
    && guest.Live? && f.attach.Taken? && f.attach.port !in guest.ports
    && (f.staleFails ==> forall p: nat :: LeftOver(known, vm, view, p) ==> p == f.attach.port)
  }

  ghost predicate SavesAll(cfg: Config, f: AttachFaults) {
    cfg.persistency ==> !f.saveSelectFails && !f.saveMarkFails && !f.saveFails
  }

  ghost predicate SameMemory(w: World, w': World) {
    w'.usbVms == w.usbVms && w'.pending == w.pending && w'.persistent == w.persistent && w'.disk == w.disk
  }

  /** An attach that goes on from here ends well exactly if `fine`; it asks the
      VM if `asks`, and announces itself when it ends well, if it asked or the
      holder changed. Unless a save failed, one that ends badly records nothing. */
  ghost predicate Ends(w: World, w': World, result: AttachResult, d: UsbDevice, vm: string, fine: bool, asks: bool,
                       changed: bool)
  {
    && (result == Attached <==> fine)
    && News(w.log, w'.log, d, vm, asks, fine && (asks || changed))
    && (!fine && result != Rejected(SaveFailed) ==> SameMemory(w, w'))
    && result != Pending
  }

  lemma RecordEnds(cfg: Config, w: World, d: UsbDevice, node: string, binding: Binding, changed: bool, f: AttachFaults)
    ensures var g := Record(cfg, w, d, node, binding, changed, f);
      && (g.result == Attached <==> SavesAll(cfg, f)) && (g.result == Attached || g.result == Rejected(SaveFailed))
      && g.world.log == if SavesAll(cfg, f) && changed then w.log + [UsbAttached(d.sysName, binding.vm)] else w.log
  {
  }

  lemma SettleEnds(cfg: Config, w: World, d: UsbDevice, node: string, socket: string, stale: Option<nat>,
                   binding: Binding, f: AttachFaults, log: seq<Action>)
    requires GuestAt(w, socket).Live? && News(log, w.log, d, binding.vm, true, false)
    ensures var g := SettleTaken(cfg, w, d, node, socket, stale, binding, f);
      var fine := SavesAll(cfg, f) && (f.staleFails ==> stale.None? || stale.value == binding.port);
      && (g.result == Attached <==> fine)
      && News(log, g.world.log, d, binding.vm, true, fine)
      && (!fine && g.result != Rejected(SaveFailed) ==> SameMemory(w, g.world))
      && (g.result == Attached || g.result.Rejected?)
  {
    var cleaned := CleanStale(w, socket, stale, binding.port, f.staleFails).0;
    CleanStaleEffects(w, socket, stale, binding.port, f.staleFails);
    if stale.Some? && stale.value != binding.port {
      NewsGoOn(log, w.log, d, binding.vm, true, false, UsbDetachCommand(socket, stale.value));
    }
    RecordEnds(cfg, cleaned, d, node, binding, true, f);
    NewsGoOn(log, cleaned.log, d, binding.vm, true, false, UsbAttached(d.sysName, binding.vm));
  }

  lemma FreshEnds(cfg: Config, w: World, d: UsbDevice, node: string, vm: string, socket: string, view: Guest,
                  names: seq<string>, f: AttachFaults)
    requires view.Live?
    ensures var g := AttachFresh(cfg, w, d, node, vm, socket, view, names, f);
      var takes := Takes(GuestAt(w, socket), Get(w.persistent.ports, d.sysName), vm, view, f);
      Ends(w, g.world, g.result, d, vm, takes && SavesAll(cfg, f), true, true)
  {
    var guest := GuestAt(w, socket);
    var command := UsbAttachCommand(socket, node, BoundDrivers(w.host.drivers, names));
    var issued := Log(w, command);
    NoNews(w.log, d, vm);
    NewsGoOn(w.log, w.log, d, vm, false, false, command);
    if guest.Live? && f.attach.Taken? && f.attach.port !in guest.ports {
      var port := f.attach.port;
      var attached := WithPorts(issued, socket, guest.ports[port := f.shown]);
      var stale := StalePort(Get(w.persistent.ports, d.sysName), vm, view);
      StaleIsLeftOver(Get(w.persistent.ports, d.sysName), vm, view);
      SettleEnds(cfg, attached, d, node, socket, stale, BindingFor(d, vm, port, view.generation), f, w.log);
    } else {
      UntakenShape(cfg, w, d, node, vm, socket, view, names, f);
      UntakenEnds(cfg, w, d, node, vm, socket, view, names, f);
    }
  }

  lemma StaleIsLeftOver(known: Option<Binding>, vm: string, view: Guest)
    requires view.Live?
    ensures forall p: nat :: LeftOver(known, vm, view, p) <==> StalePort(known, vm, view) == Some(p)
  {
  }

  lemma UntakenEnds(cfg: Config, w: World, d: UsbDevice, node: string, vm: string, socket: string, view: Guest,
                    names: seq<string>, f: AttachFaults)
    requires view.Live?
    requires !(GuestAt(w, socket).Live? && f.attach.Taken? && f.attach.port !in GuestAt(w, socket).ports)
    ensures var g := AttachFresh(cfg, w, d, node, vm, socket, view, names, f);
      && g.result == Rejected(CrosvmFailed)
      && g.world.log == w.log + [UsbAttachCommand(socket, node, BoundDrivers(w.host.drivers, names))]
  {
  }

  lemma ConnectEnds(cfg: Config, w: World, d: UsbDevice, node: string, vm: string, socket: string,
                    preflight: Option<Guest>, changed: bool, names: seq<string>, f: AttachFaults)
    requires preflight.Some? ==> preflight.value.Live?
    ensures var g := Connect(cfg, w, d, node, vm, socket, preflight, changed, names, f);
      var view := if preflight.Some? then preflight.value else GuestAt(w, socket);
      var known := Get(w.persistent.ports, d.sysName);
      var listed := preflight.Some? || (view.Live? && !f.listFails);
      var described := Described(known, d, vm, view);
      && Ends(w, g.world, g.result, d, vm,
              listed && SavesAll(cfg, f) && (described || Takes(GuestAt(w, socket), known, vm, view, f)),
              listed && !described, changed)
  {
    var view := if preflight.Some? then preflight.value else GuestAt(w, socket);
    var known := Get(w.persistent.ports, d.sysName);
    NoNews(w.log, d, vm);
    if preflight.Some? || (view.Live? && !f.listFails) {
      if Described(known, d, vm, view) {
        assert Reusable(known, d, vm, view);
        RecordEnds(cfg, w, d, node, known.value, changed, f);
        NewsGoOn(w.log, w.log, d, vm, false, false, UsbAttached(d.sysName, vm));
      } else {
        FreshEnds(cfg, w, d, node, vm, socket, view, names, f);
      }
    }
  }

  // ----- the claim -----

  /** Nothing stands in the way of claiming the interface. */
  ghost predicate Claimable(drivers: map<string, Driver>, fails: set<string>, name: string) {
    name in drivers ==> drivers[name].Usbfs? || (drivers[name].HostDriver? && name !in fails)
  }

  ghost predicate AllClaimable(drivers: map<string, Driver>, names: seq<string>, fails: set<string>) {
    forall i :: 0 <= i < |names| ==> Claimable(drivers, fails, names[i])
  }

  /** A hub is found before anything else stops the claim. */
  ghost predicate HubFirst(drivers: map<string, Driver>, names: seq<string>, fails: set<string>) {
    exists i :: 0 <= i < |names| && Get(drivers, names[i]) == Some(HubDriver)
                && AllClaimable(drivers, names[..i], fails)
  }

  /** A claim succeeds if and only if every interface can be claimed, and finds
      a hub if and only if one comes before the first that cannot. */
  lemma {:induction false} ClaimEnds(drivers: map<string, Driver>, names: seq<string>, fails: set<string>)
    ensures var claim := ClaimInterfaces(drivers, names, fails).1;
      && (claim == Claimed <==> AllClaimable(drivers, names, fails))
      && (claim == IsHub <==> HubFirst(drivers, names, fails))
  {
    if names != [] {
      var name, rest := names[0], names[1..];
      if Claimable(drivers, fails, name) {
        var next := if name in drivers && drivers[name].HostDriver? then Without(drivers, name) else drivers;
        ClaimEnds(next, rest, fails);
        ClaimStep(drivers, next, names, fails);
      } else {
        HubAtOnce(drivers, names, fails);
      }
    }
  }

  lemma HubAtOnce(drivers: map<string, Driver>, names: seq<string>, fails: set<string>)
    requires names != [] && !Claimable(drivers, fails, names[0])
    ensures HubFirst(drivers, names, fails) <==> drivers[names[0]] == HubDriver
    ensures !AllClaimable(drivers, names, fails)
  {
    assert AllClaimable(drivers, names[..0], fails);
    forall i | 0 < i <= |names| ensures !AllClaimable(drivers, names[..i], fails) {
      assert names[..i][0] == names[0];
    }
  }

  lemma ClaimStep(drivers: map<string, Driver>, next: map<string, Driver>, names: seq<string>, fails: set<string>)
    requires names != [] && Claimable(drivers, fails, names[0])
    requires next == if names[0] in drivers && drivers[names[0]].HostDriver? then Without(drivers, names[0])
                     else drivers
    ensures AllClaimable(drivers, names, fails) <==> AllClaimable(next, names[1..], fails)
    ensures HubFirst(drivers, names, fails) <==> HubFirst(next, names[1..], fails)
  {
    var rest := names[1..];
    forall k | 0 <= k <= |rest| ensures AllClaimable(drivers, names[..k + 1], fails) <==>
                                        AllClaimable(next, rest[..k], fails)
    {
      ClaimStepAt(drivers, next, names, fails, k);
    }
    assert names[..|rest| + 1] == names && rest[..|rest|] == rest;
    if HubFirst(drivers, names, fails) {
      var i :| 0 <= i < |names| && Get(drivers, names[i]) == Some(HubDriver)
               && AllClaimable(drivers, names[..i], fails);
      assert rest[i - 1] == names[i] && AllClaimable(next, rest[..i - 1], fails);
    }
    if HubFirst(next, rest, fails) {
      var i :| 0 <= i < |rest| && Get(next, rest[i]) == Some(HubDriver) && AllClaimable(next, rest[..i], fails);
      assert names[i + 1] == rest[i] && AllClaimable(drivers, names[..i + 1], fails);
    }
  }

  lemma ClaimStepAt(drivers: map<string, Driver>, next: map<string, Driver>, names: seq<string>, fails: set<string>,
                    k: nat)
    requires names != [] && Claimable(drivers, fails, names[0]) && k < |names|
    requires next == if names[0] in drivers && drivers[names[0]].HostDriver? then Without(drivers, names[0])
                     else drivers
    ensures AllClaimable(drivers, names[..k + 1], fails) <==> AllClaimable(next, names[1..][..k], fails)
  {
    assert forall n :: n == names[0] || Get(next, n) == Get(drivers, n);
    assert Claimable(next, fails, names[0]);
    forall i | 0 <= i < k ensures names[1..][..k][i] == names[..k + 1][i + 1] {
    }
    if AllClaimable(drivers, names[..k + 1], fails) {
      forall i | 0 <= i < k ensures Claimable(next, fails, names[1..][..k][i]) {
        assert Claimable(drivers, fails, names[..k + 1][i + 1]);
      }
    }
    if AllClaimable(next, names[1..][..k], fails) {
      var front := names[..k + 1];
      forall i | 0 <= i < |front| ensures Claimable(drivers, fails, front[i]) {
        if i > 0 {
          var j := i - 1;
          assert Claimable(next, fails, names[1..][..k][j]);
        }
      }
    }
  }

  // ----- under the guard -----

  /** The drivers the claim finds: those of an unconfigured device come from a probe. */
  ghost predicate Finds(cfg: Config, w: World, d: UsbDevice, f: AttachFaults, drivers: map<string, Driver>) {
    if cfg.hasBus && d.sysName !in w.host.drivers then !f.probeFails && drivers == w.host.drivers + f.probed
    else drivers == w.host.drivers
  }

  /** The device can be configured, listed and claimed. */
  ghost predicate Readies(cfg: Config, w: World, d: UsbDevice, f: AttachFaults) {
    && f.interfaces.Some?
    && exists drivers :: Finds(cfg, w, d, f, drivers) && AllClaimable(drivers, f.interfaces.value, f.releaseFails)
  }

  ghost predicate IsSkipped(cfg: Config, w: World, d: UsbDevice, f: AttachFaults) {
    && f.interfaces.Some?
    && exists drivers :: Finds(cfg, w, d, f, drivers) && HubFirst(drivers, f.interfaces.value, f.releaseFails)
  }

  lemma PrepareEnds(cfg: Config, w: World, d: UsbDevice, f: AttachFaults)
    ensures var (w1, stop) := Prepare(cfg, w, d, f);
      && (stop == None <==> Readies(cfg, w, d, f))
      && (stop == Some(SkippedHub) <==> IsSkipped(cfg, w, d, f))
      && (stop.None? || stop.value == SkippedHub || stop.value == Rejected(ProbeFailed)
          || stop.value == Rejected(ClaimFailed))
      && w1.reportedHubs == w.reportedHubs + (if IsSkipped(cfg, w, d, f) then {PersistentId(d)} else {})
      && SameMemory(w, w1) && w1.log == w.log && w1.guests == w.guests
  {
    PrepareFrame(cfg, w, d, f);
    var before := Configured(cfg, w, d, f);
    assert forall drivers :: Finds(cfg, w, d, f, drivers) ==> drivers == before;
    if f.interfaces.Some? {
      ClaimEnds(before, f.interfaces.value, f.releaseFails);
      assert !(cfg.hasBus && d.sysName !in w.host.drivers && f.probeFails) ==> Finds(cfg, w, d, f, before);
    }
  }

  /** The authorization the attach needs is there or can be given. */
  ghost predicate Admits(cfg: Config, w: World, d: UsbDevice, f: AttachFaults) {
    !cfg.authorization || d.hub || Get(w.host.authorized, d.sysName) == Some(true)
    || (d.sysName in w.host.authorized && !f.authorizeFails)
  }

  /** Everything an attach from here needs in order to succeed. */
  ghost predicate Succeeds(cfg: Config, w: World, d: UsbDevice, vm: string, socket: string, preflight: Option<Guest>,
                           f: AttachFaults)
  {
    var view := if preflight.Some? then preflight.value else GuestAt(w, socket);
    var known := Get(w.persistent.ports, d.sysName);
    && Asks(cfg, w, d, socket, preflight, f) && SavesAll(cfg, f)
    && (Described(known, d, vm, view) || Takes(GuestAt(w, socket), known, vm, view, f))
  }

  /** An attach gets as far as the VM. */
  ghost predicate Asks(cfg: Config, w: World, d: UsbDevice, socket: string, preflight: Option<Guest>,
                       f: AttachFaults)
  {
    && Admits(cfg, w, d, f) && Readies(cfg, w, d, f)
    && (preflight.Some? || (GuestAt(w, socket).Live? && !f.listFails))
  }

  lemma ConnectSkipsNothing(cfg: Config, w: World, d: UsbDevice, node: string, vm: string, socket: string,
                            preflight: Option<Guest>, changed: bool, names: seq<string>, f: AttachFaults)
    requires preflight.Some? ==> preflight.value.Live?
    ensures Connect(cfg, w, d, node, vm, socket, preflight, changed, names, f).result != SkippedHub
  {
    SuspendResume.ConnectResults(cfg, w, d, node, vm, socket, preflight, changed, names, f);
  }

  /** How an attach under the guard ends. */
  ghost predicate GuardEnds(cfg: Config, w: World, s: (World, AttachResult), d: UsbDevice, vm: string, socket: string,
                            preflight: Option<Guest>, changed: bool, f: AttachFaults)
  {
    var view := if preflight.Some? then preflight.value else GuestAt(w, socket);
    var described := Described(Get(w.persistent.ports, d.sysName), d, vm, view);
    && Ends(w, s.0, s.1, d, vm, Succeeds(cfg, w, d, vm, socket, preflight, f),
            Asks(cfg, w, d, socket, preflight, f) && !described, changed)
    && (s.1 == SkippedHub <==> Admits(cfg, w, d, f) && IsSkipped(cfg, w, d, f))
  }

  lemma ClaimAndConnectEnds(cfg: Config, w: World, d: UsbDevice, node: string, vm: string, socket: string,
                            preflight: Option<Guest>, changed: bool, f: AttachFaults)
    requires (preflight.Some? ==> preflight.value.Live?) && Admits(cfg, w, d, f)
    ensures var g := ClaimAndConnect(cfg, w, d, node, vm, socket, preflight, changed, f);
      GuardEnds(cfg, w, (g.world, g.result), d, vm, socket, preflight, changed, f)
  {
    var (w1, stop) := Prepare(cfg, w, d, f);
    PrepareEnds(cfg, w, d, f);
    if stop.None? {
      ConnectEnds(cfg, w1, d, node, vm, socket, preflight, changed, f.interfaces.value, f);
      ConnectSkipsNothing(cfg, w1, d, node, vm, socket, preflight, changed, f.interfaces.value, f);
    } else {
      NoNews(w.log, d, vm);
    }
  }

  lemma UnderGuardEnds(cfg: Config, w: World, d: UsbDevice, node: string, vm: string, socket: string,
                       preflight: Option<Guest>, changed: bool, f: AttachFaults)
    requires preflight.Some? ==> preflight.value.Live?
    ensures GuardEnds(cfg, w, UnderGuard(cfg, w, d, node, vm, socket, preflight, changed, f), d, vm, socket, preflight,
                      changed, f)
  {
    var (w', result) := UnderGuard(cfg, w, d, node, vm, socket, preflight, changed, f);
    var w1 := if Armed(cfg, w, d) then WithAuthorized(w, d.sysName, true, false) else w;
    GuardStages(cfg, w, d, node, vm, socket, preflight, changed, f);
    if Admits(cfg, w, d, f) {
      ClaimAndConnectEnds(cfg, w1, d, node, vm, socket, preflight, changed, f);
      GuardOpened(cfg, w, w1, ClaimAndConnect(cfg, w1, d, node, vm, socket, preflight, changed, f), w', d, vm, socket,
                  preflight, changed, f);
    } else {
      GuardRefused(cfg, w, w', d, vm, socket, preflight, changed, f);
    }
  }

  lemma GuardRefused(cfg: Config, w: World, w': World, d: UsbDevice, vm: string, socket: string,
                     preflight: Option<Guest>, changed: bool, f: AttachFaults)
    requires !Admits(cfg, w, d, f) && BitOnly(w, w')
    ensures GuardEnds(cfg, w, (w', Rejected(AuthorizeFailed)), d, vm, socket, preflight, changed, f)
  {
    NoNews(w.log, d, vm);
  }

  lemma GuardOpened(cfg: Config, w: World, w1: World, g: Guarded, w': World, d: UsbDevice, vm: string, socket: string,
                    preflight: Option<Guest>, changed: bool, f: AttachFaults)
    requires BitOnly(w, w1) && BitOnly(g.world, w') && Admits(cfg, w, d, f) && Admits(cfg, w1, d, f)
    requires GuardEnds(cfg, w1, (g.world, g.result), d, vm, socket, preflight, changed, f)
    ensures GuardEnds(cfg, w, (w', g.result), d, vm, socket, preflight, changed, f)
  {
    OpenedIsSame(cfg, w, w1, d, vm, socket, preflight, f);
  }

  /** A guard that cannot be armed ends the attach; dropping it changes the
      authorization only. */
  lemma GuardStages(cfg: Config, w: World, d: UsbDevice, node: string, vm: string, socket: string,
                    preflight: Option<Guest>, changed: bool, f: AttachFaults)
    requires preflight.Some? ==> preflight.value.Live?
    ensures var (w', result) := UnderGuard(cfg, w, d, node, vm, socket, preflight, changed, f);
      if Admits(cfg, w, d, f) then
        var w1 := if Armed(cfg, w, d) then WithAuthorized(w, d.sysName, true, false) else w;
        var g := ClaimAndConnect(cfg, w1, d, node, vm, socket, preflight, changed, f);
        Admits(cfg, w1, d, f) && BitOnly(w, w1) && BitOnly(g.world, w') && result == g.result
      else BitOnly(w, w') && result == Rejected(AuthorizeFailed)
  {
  }

  lemma OpenedIsSame(cfg: Config, w: World, w1: World, d: UsbDevice, vm: string, socket: string,
                     preflight: Option<Guest>, f: AttachFaults)
    requires BitOnly(w, w1) && Admits(cfg, w, d, f) && Admits(cfg, w1, d, f)
    ensures Asks(cfg, w1, d, socket, preflight, f) == Asks(cfg, w, d, socket, preflight, f)
    ensures Succeeds(cfg, w1, d, vm, socket, preflight, f) == Succeeds(cfg, w, d, vm, socket, preflight, f)
    ensures IsSkipped(cfg, w1, d, f) == IsSkipped(cfg, w, d, f)
  {
    assert forall drivers :: Finds(cfg, w1, d, f, drivers) == Finds(cfg, w, d, f, drivers);
  }

  // ----- a whole attach -----

  /** Before a device is touched: the VM is there, and answers where it has to. */
  ghost predicate Reaches(cfg: Config, w: World, d: UsbDevice, vm: string, f: AttachFaults)
    requires vm in cfg.sockets
  {
    var guest := GuestAt(w, cfg.sockets[vm]);
    && d.node.Some?
    && (cfg.authorization ==> !guest.NoSocket? && (!d.hub ==> guest.Live? && !f.preflightFails))
  }

  /** An attach that gets nowhere changes nothing. */
  lemma UnreachedChangesNothing(cfg: Config, w: World, d: UsbDevice, vm: string, f: AttachFaults)
    requires vm in cfg.sockets && !Reaches(cfg, w, d, vm, f)
    ensures var (w', result) := AttachTo(cfg, w, d, vm, f); w' == w && result.Rejected?
    ensures cfg.authorization && GuestAt(w, cfg.sockets[vm]).NoSocket? ==>
              AttachTo(cfg, w, d, vm, f).1 == Rejected(SocketAbsent)
  {
  }

  /** Where no other VM has to give the device up, this is exactly when an attach
      succeeds, asks the VM, announces itself and skips a hub; and unless a save
      fails, one that does not succeed records nothing. */
  lemma AttachEnds(cfg: Config, w: World, d: UsbDevice, vm: string, f: AttachFaults)
    requires vm in cfg.sockets && Reaches(cfg, w, d, vm, f) && !MustMove(w, d, vm)
    ensures var socket, (w', result) := cfg.sockets[vm], AttachTo(cfg, w, d, vm, f);
      var guest := GuestAt(w, socket);
      var preflight := if cfg.authorization && !d.hub then Some(guest) else None;
      GuardEnds(cfg, w, (w', result), d, vm, socket, preflight, Get(w.usbVms, d.node.value) != Some(vm), f)
  {
    var guest := GuestAt(w, cfg.sockets[vm]);
    var preflight := if cfg.authorization && !d.hub then Some(guest) else None;
    UnderGuardEnds(cfg, w, d, d.node.value, vm, cfg.sockets[vm], preflight, Get(w.usbVms, d.node.value) != Some(vm), f);
  }

  /** Where another VM holds the device, it has to give it up first: an attach
      goes no further than a detach that fails, and otherwise goes on from what
      the detach leaves, announcing the new holder. */
  lemma MoveEnds(cfg: Config, w: World, d: UsbDevice, vm: string, f: AttachFaults)
    requires vm in cfg.sockets && Reaches(cfg, w, d, vm, f) && MustMove(w, d, vm)
    ensures var socket, (w', result) := cfg.sockets[vm], AttachTo(cfg, w, d, vm, f);
      var (w1, moved) := DetachOne(cfg, w, d, false, f.move);
      var preflight := if cfg.authorization && !d.hub then Some(GuestAt(w, socket)) else None;
      if moved.Failed? then w' == w1 && result == Rejected(moved.error)
      else d.sysName !in w1.persistent.ports && GuardEnds(cfg, w1, (w', result), d, vm, socket, preflight, true, f)
  {
    var (w1, moved) := DetachOne(cfg, w, d, false, f.move);
    if moved.Done? {
      var preflight := if cfg.authorization && !d.hub then Some(GuestAt(w, cfg.sockets[vm])) else None;
      DetachDoneShape(cfg, w, d, false, f.move);
      assert d.sysName !in w1.persistent.ports;
      UnderGuardEnds(cfg, w1, d, d.node.value, vm, cfg.sockets[vm], preflight, true, f);
    }
  }

  // ----- when the guard is committed -----

  /** The VM has the device, whatever is still to fail: it had it on record, or
      took it at a port that was free. */
  ghost predicate HasIt(cfg: Config, w: World, d: UsbDevice, vm: string, socket: string, preflight: Option<Guest>,
                        f: AttachFaults)
  {
    var guest := GuestAt(w, socket);
    var view := if preflight.Some? then preflight.value else guest;
    && Asks(cfg, w, d, socket, preflight, f)
    && (Described(Get(w.persistent.ports, d.sysName), d, vm, view)
        || (guest.Live? && f.attach.Taken? && f.attach.port !in guest.ports))
  }

  lemma FreshCommitsIff(cfg: Config, w: World, d: UsbDevice, node: string, vm: string, socket: string, view: Guest,
                        names: seq<string>, f: AttachFaults)
    requires view.Live?
    ensures AttachFresh(cfg, w, d, node, vm, socket, view, names, f).committed <==>
              GuestAt(w, socket).Live? && f.attach.Taken? && f.attach.port !in GuestAt(w, socket).ports
  {
    var guest := GuestAt(w, socket);
    if guest.Live? && f.attach.Taken? && f.attach.port !in guest.ports {
      var issued := Log(w, UsbAttachCommand(socket, node, BoundDrivers(w.host.drivers, names)));
      var attached := WithPorts(issued, socket, guest.ports[f.attach.port := f.shown]);
      var stale := StalePort(Get(w.persistent.ports, d.sysName), vm, view);
      var binding := BindingFor(d, vm, f.attach.port, view.generation);
      SettlingCommits(cfg, attached, d, node, socket, stale, binding, f);
    }
  }

  lemma SettlingCommits(cfg: Config, w: World, d: UsbDevice, node: string, socket: string, stale: Option<nat>,
                        binding: Binding, f: AttachFaults)
    requires GuestAt(w, socket).Live?
    ensures SettleTaken(cfg, w, d, node, socket, stale, binding, f).committed
  {
    RecordingCommits(cfg, CleanStale(w, socket, stale, binding.port, f.staleFails).0, d, node, binding, true, f);
  }

  lemma RecordingCommits(cfg: Config, w: World, d: UsbDevice, node: string, binding: Binding, changed: bool,
                         f: AttachFaults)
    ensures Record(cfg, w, d, node, binding, changed, f).committed
  {
  }

  lemma ConnectCommitsIff(cfg: Config, w: World, d: UsbDevice, node: string, vm: string, socket: string,
                          preflight: Option<Guest>, changed: bool, names: seq<string>, f: AttachFaults)
    requires preflight.Some? ==> preflight.value.Live?
    ensures var guest := GuestAt(w, socket);
      var view := if preflight.Some? then preflight.value else guest;
      Connect(cfg, w, d, node, vm, socket, preflight, changed, names, f).committed <==>
        && (preflight.Some? || (guest.Live? && !f.listFails))
        && (Described(Get(w.persistent.ports, d.sysName), d, vm, view)
            || (guest.Live? && f.attach.Taken? && f.attach.port !in guest.ports))
  {
    var view := if preflight.Some? then preflight.value else GuestAt(w, socket);
    var known := Get(w.persistent.ports, d.sysName);
    if preflight.Some? || (view.Live? && !f.listFails) {
      assert Reusable(known, d, vm, view) <==> Described(known, d, vm, view);
      if Described(known, d, vm, view) {
        RecordingCommits(cfg, w, d, node, known.value, changed, f);
      } else {
        FreshCommitsIff(cfg, w, d, node, vm, socket, view, names, f);
      }
    }
  }

  lemma ClaimCommitsIff(cfg: Config, w: World, d: UsbDevice, node: string, vm: string, socket: string,
                        preflight: Option<Guest>, changed: bool, f: AttachFaults)
    requires (preflight.Some? ==> preflight.value.Live?) && Admits(cfg, w, d, f)
    ensures ClaimAndConnect(cfg, w, d, node, vm, socket, preflight, changed, f).committed <==>
              HasIt(cfg, w, d, vm, socket, preflight, f)
  {
    var (w1, stop) := Prepare(cfg, w, d, f);
    PrepareEnds(cfg, w, d, f);
    if stop.None? {
      ConnectCommitsIff(cfg, w1, d, node, vm, socket, preflight, changed, f.interfaces.value, f);
    }
  }

  /** Arming the guard is no matter to what follows. */
  lemma GuardIsNoMatter(cfg: Config, w: World, d: UsbDevice, vm: string, socket: string, preflight: Option<Guest>,
                        f: AttachFaults)
    requires Admits(cfg, w, d, f)
    ensures var w1 := if Armed(cfg, w, d) then WithAuthorized(w, d.sysName, true, false) else w;
      Admits(cfg, w1, d, f) && HasIt(cfg, w1, d, vm, socket, preflight, f) == HasIt(cfg, w, d, vm, socket, preflight, f)
  {
    var w1 := if Armed(cfg, w, d) then WithAuthorized(w, d.sysName, true, false) else w;
    OpenedIsSame(cfg, w, w1, d, vm, socket, preflight, f);
  }

  /** The guard is committed if and only if the attach gets as far as the VM and
      the VM then has the device: nothing that fails afterwards withdraws the
      authorization, and nothing else keeps it. */
  lemma CommitsIff(cfg: Config, w: World, d: UsbDevice, node: string, vm: string, socket: string,
                   preflight: Option<Guest>, changed: bool, f: AttachFaults)
    requires preflight.Some? ==> preflight.value.Live?
    ensures Commits(cfg, w, d, node, vm, socket, preflight, changed, f) <==>
              HasIt(cfg, w, d, vm, socket, preflight, f)
  {
    if Admits(cfg, w, d, f) {
      var w1 := if Armed(cfg, w, d) then WithAuthorized(w, d.sysName, true, false) else w;
      GuardIsNoMatter(cfg, w, d, vm, socket, preflight, f);
      ClaimCommitsIff(cfg, w1, d, node, vm, socket, preflight, changed, f);
      GuardPasses(cfg, w, d, node, vm, socket, preflight, changed, f);
    }
  }

  lemma GuardPasses(cfg: Config, w: World, d: UsbDevice, node: string, vm: string, socket: string,
                    preflight: Option<Guest>, changed: bool, f: AttachFaults)
    requires (preflight.Some? ==> preflight.value.Live?) && Admits(cfg, w, d, f)
    ensures var w1 := if Armed(cfg, w, d) then WithAuthorized(w, d.sysName, true, false) else w;
      Commits(cfg, w, d, node, vm, socket, preflight, changed, f) ==
      ClaimAndConnect(cfg, w1, d, node, vm, socket, preflight, changed, f).committed
  {
  }

  /** The same for a whole attach: it has to be reached, and a move has to have
      succeeded. */
  lemma AttachCommitsIff(cfg: Config, w: World, d: UsbDevice, vm: string, f: AttachFaults)
    requires vm in cfg.sockets
    ensures var socket := cfg.sockets[vm];
      var preflight := if cfg.authorization && !d.hub then Some(GuestAt(w, socket)) else None;
      AttachCommits(cfg, w, d, vm, f) <==>
        && Reaches(cfg, w, d, vm, f)
        && (if MustMove(w, d, vm) then
              var (w1, moved) := DetachOne(cfg, w, d, false, f.move);
              moved.Done? && HasIt(cfg, w1, d, vm, socket, preflight, f)
            else HasIt(cfg, w, d, vm, socket, preflight, f))
  {
    var socket := cfg.sockets[vm];
    var preflight := if cfg.authorization && !d.hub then Some(GuestAt(w, socket)) else None;
    if Reaches(cfg, w, d, vm, f) {
      if MustMove(w, d, vm) {
        CommitsIff(cfg, DetachOne(cfg, w, d, false, f.move).0, d, d.node.value, vm, socket, preflight, true, f);
      } else {
        CommitsIff(cfg, w, d, d.node.value, vm, socket, preflight, Get(w.usbVms, d.node.value) != Some(vm), f);
      }
    }
  }
}
