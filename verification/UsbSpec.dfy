/**
 What each USB operation of the manager does to the world, as a function of
 the world before, the arguments, and a record of everything that may go
 wrong on the way. The methods of the manager are proved against these.
 */
module UsbSpec {
  import opened Prelude
  import opened Crosvm
  import opened World
  import Marks

  datatype DetachFaults = DetachFaults(
    listFails: bool,
    detachFails: bool,
    saveMarkFails: bool,
    saveFails: bool,
    deauthorizeFails: bool)

  /** `probed` is what the kernel binds when an unconfigured device is probed,
      `interfaces` the directory listing that follows, and `shown` how the VM
      lists the device it took. */
  datatype AttachFaults = AttachFaults(
    preflightFails: bool,
    move: DetachFaults,
    authorizeFails: bool,
    rollbackFails: bool,
    probeFails: bool,
    probed: map<string, Driver>,
    interfaces: Option<seq<string>>,
    releaseFails: set<string>,
    listFails: bool,
    attach: AttachOutcome,
    shown: Ident,
    staleFails: bool,
    saveSelectFails: bool,
    saveMarkFails: bool,
    saveFails: bool)

  // ----- detaching -----

  ghost function The(s: set<nat>): nat
    requires s != {}
  {
    var x :| x in s; x
  }

  lemma OnlyOne(s: set<nat>, p: nat)
    requires |s| == 1 && p in s
    ensures The(s) == p
  {
    assert |s - {p}| == 0;
  }

  function Matching(live: map<nat, Ident>, d: UsbDevice): set<nat> {
    set p | p in live && Shows(live[p], d.vid, d.pid)
  }

  /** The detach command, which either removes the port or does nothing. */
  function DetachPort(w: World, socket: string, port: nat, fails: bool): (World, Option<Failure>)
    requires GuestAt(w, socket).Live?
  {
    var issued := Log(w, UsbDetachCommand(socket, port));
    if fails then (issued, Some(CrosvmFailed))
    else (WithPorts(issued, socket, Without(w.guests[socket].ports, port)), None)
  }

  /** Which port to take back: the recorded one if the record is of this very
      socket, and otherwise the only one that shows the device. */
  ghost function PortToRelease(live: map<nat, Ident>, generation: nat, binding: Option<Binding>, d: UsbDevice)
    : Result<Option<nat>, Failure>
  {
    if binding.Some? && binding.value.generation == generation then
      if binding.value.port !in live then Ok(None)
      else if !Shows(live[binding.value.port], d.vid, d.pid) then Err(DifferentDevice)
      else Ok(Some(binding.value.port))
    else
      var matching := Matching(live, d);
      if matching == {} then Ok(None)
      else if |matching| == 1 then Ok(Some(The(matching)))
      else Err(AmbiguousDetach)
  }

  ghost function ReleaseFromVm(w: World, socket: string, binding: Option<Binding>, d: UsbDevice, f: DetachFaults)
    : (World, Option<Failure>)
  {
    var guest := GuestAt(w, socket);
    if guest.NoSocket? then (w, None)
    else if Listing(guest, f.listFails).None? then (w, Some(CrosvmFailed))
    else
      var release := PortToRelease(guest.ports, guest.generation, binding, d);
      if release.Err? then (w, Some(release.error))
      else if release.value.None? then (w, None)
      else DetachPort(w, socket, release.value.value, f.detachFails)
  }

  /** The records dropped and the mark set once the VM no longer has the device. */
  function Forget(w: World, d: UsbDevice, node: string, permanent: bool): World {
    w.(usbVms := Without(w.usbVms, node),
       persistent := w.persistent.(
         ports := Without(w.persistent.ports, d.sysName),
         disconnected := Marks.SetDisconnected(w.persistent.disconnected, PersistentId(d), permanent)))
  }

  function FinishDetach(cfg: Config, w: World, d: UsbDevice, node: string, permanent: bool, f: DetachFaults)
    : (World, Outcome)
  {
    var forgotten := Saved(cfg, Forget(w, d, node, permanent), f.saveMarkFails);
    var cleared := forgotten.(pending := forgotten.pending - {PersistentId(d)});
    var closed := if cfg.authorization && !d.hub
                  then WithAuthorized(cleared, d.sysName, false, f.deauthorizeFails) else cleared;
    (closed, if SaveFails(cfg, f.saveMarkFails || f.saveFails) then Failed(SaveFailed) else Done)
  }

  function Holder(w: World, d: UsbDevice, node: string): Option<string> {
    if node in w.usbVms then Some(w.usbVms[node])
    else if d.sysName in w.persistent.ports then Some(w.persistent.ports[d.sysName].vm)
    else None
  }

  ghost function DetachOne(cfg: Config, w: World, d: UsbDevice, permanent: bool, f: DetachFaults): (World, Outcome) {
    if d.node.None? then (w, Failed(NoDeviceNode))
    else
      var node := d.node.value;
      var holder := Holder(w, d, node);
      if holder.None? then FinishDetach(cfg, w, d, node, permanent, f)
      else if holder.value !in cfg.sockets then (w, Failed(UnknownVm))
      else
        var (w1, error) := ReleaseFromVm(w, cfg.sockets[holder.value], Get(w.persistent.ports, d.sysName), d, f);
        if error.Some? then (w1, Failed(error.value))
        else FinishDetach(cfg, Log(w1, UsbDetached(node, holder.value)), d, node, permanent, f)
  }

  // ----- attaching -----

  datatype AttachResult = Attached | Pending | SkippedHub | Rejected(error: Failure)

  /** Where the authorization guard stands when a step returns: once Crosvm
      owns the device the guard is committed and leaves the device authorized. */
  datatype Guarded = Guarded(world: World, result: AttachResult, committed: bool)

  function ChooseVm(selected: map<string, string>, id: string, rule: UsbRule,
                    requested: Option<string>): Option<string> {
    if requested.Some? then requested
    else if rule.targetVm.Some? then rule.targetVm
    else if id in selected then Some(selected[id])
    else if |rule.allowedVms| == 1 then Some(rule.allowedVms[0])
    else None
  }

  function AskForVm(w: World, d: UsbDevice): World {
    var id := PersistentId(d);
    if id in w.pending then w else Log(w.(pending := w.pending + {id}), UsbSelectVm(d.sysName))
  }

  datatype Claim = Claimed | IsHub | ReleaseFailed

  /** Takes host drivers off interface by interface, stopping at a hub or at
      a failed release. */
  function ClaimInterfaces(drivers: map<string, Driver>, names: seq<string>,
                           fails: set<string>): (map<string, Driver>, Claim) {
    if names == [] then (drivers, Claimed)
    else
      var name := names[0];
      if name !in drivers || drivers[name].Usbfs? then ClaimInterfaces(drivers, names[1..], fails)
      else if drivers[name].HubDriver? then (drivers, IsHub)
      else if name in fails then (drivers, ReleaseFailed)
      else ClaimInterfaces(Without(drivers, name), names[1..], fails)
  }

  function BoundDrivers(drivers: map<string, Driver>, names: seq<string>): seq<Option<Driver>> {
    seq(|names|, i requires 0 <= i < |names| => Get(drivers, names[i]))
  }

  function NoteVm(w: World, d: UsbDevice, node: string, vm: string): World {
    w.(usbVms := w.usbVms[node := vm],
       persistent := w.persistent.(selected := w.persistent.selected[PersistentId(d) := vm]))
  }

  function LiftMark(w: World, d: UsbDevice): World {
    w.(persistent := w.persistent.(
         disconnected := Marks.SetDisconnected(w.persistent.disconnected, PersistentId(d), false)))
  }

  function NotePort(w: World, d: UsbDevice, binding: Binding): World {
    w.(persistent := w.persistent.(ports := w.persistent.ports[d.sysName := binding]))
  }

  function Announce(w: World, d: UsbDevice, vm: string, changed: bool): World {
    var settled := w.(pending := w.pending - {PersistentId(d)});
    if changed then Log(settled, UsbAttached(d.sysName, vm)) else settled
  }

  /** The records written once Crosvm owns the device, with a save after each. */
  function Record(cfg: Config, w: World, d: UsbDevice, node: string, binding: Binding, changed: bool,
                  f: AttachFaults): Guarded {
    var w1 := NoteVm(w, d, node, binding.vm);
    if SaveFails(cfg, f.saveSelectFails) then Guarded(w1, Rejected(SaveFailed), true)
    else
      var w2 := LiftMark(Saved(cfg, w1, false), d);
      if SaveFails(cfg, f.saveMarkFails) then Guarded(w2, Rejected(SaveFailed), true)
      else RecordPort(cfg, Saved(cfg, w2, false), d, binding, changed, f)
  }

  /** The last of the three records, and the announcement. */
  function RecordPort(cfg: Config, w: World, d: UsbDevice, binding: Binding, changed: bool, f: AttachFaults): Guarded {
    var w1 := NotePort(w, d, binding);
    if SaveFails(cfg, f.saveFails) then Guarded(w1, Rejected(SaveFailed), true)
    else Guarded(Announce(Saved(cfg, w1, false), d, binding.vm, changed), Attached, true)
  }

  function BindingFor(d: UsbDevice, vm: string, port: nat, generation: nat): Binding {
    Binding(vm, port, generation, d.vid, d.pid, d.serial)
  }

  /** A recorded binding that still describes this very device, at a port the
      VM still lists for it. */
  predicate Reusable(known: Option<Binding>, d: UsbDevice, vm: string, view: Guest)
    requires view.Live?
  {
    && known.Some?
    && known.value == BindingFor(d, vm, known.value.port, view.generation)
    && known.value.port in view.ports
    && Shows(view.ports[known.value.port], d.vid, d.pid)
  }

  /** The port an earlier device of this name still occupies. */
  function StalePort(known: Option<Binding>, vm: string, view: Guest): Option<nat>
    requires view.Live?
  {
    if && known.Some?
       && known.value.vm == vm
       && known.value.generation == view.generation
       && known.value.port in view.ports
       && Shows(view.ports[known.value.port], known.value.vid, known.value.pid)
    then Some(known.value.port) else None
  }

  /** The earlier device's port is given back, unless it is the new one. */
  function CleanStale(w: World, socket: string, stale: Option<nat>, port: nat, fails: bool): (World, Option<Failure>)
    requires GuestAt(w, socket).Live?
  {
    if stale.Some? && stale.value != port then DetachPort(w, socket, stale.value, fails) else (w, None)
  }

  /** Crosvm owns the device from here on, whatever else goes wrong. */
  function SettleTaken(cfg: Config, w: World, d: UsbDevice, node: string, socket: string, stale: Option<nat>,
                       binding: Binding, f: AttachFaults): Guarded
    requires GuestAt(w, socket).Live?
  {
    var (cleaned, error) := CleanStale(w, socket, stale, binding.port, f.staleFails);
    if error.Some? then Guarded(cleaned, Rejected(error.value), true)
    else Record(cfg, cleaned, d, node, binding, true, f)
  }

  /** `view` is the VM as listed; the preflight listing when there was one. */
  function AttachFresh(cfg: Config, w: World, d: UsbDevice, node: string, vm: string, socket: string, view: Guest,
                       names: seq<string>, f: AttachFaults): Guarded
    requires view.Live?
  {
    var issued := Log(w, UsbAttachCommand(socket, node, BoundDrivers(w.host.drivers, names)));
    var guest := GuestAt(w, socket);
    if !guest.Live? || f.attach.Refused? || f.attach.port in guest.ports
    then Guarded(issued, Rejected(CrosvmFailed), false)
    else
      var port := f.attach.port;
      var attached := WithPorts(issued, socket, guest.ports[port := f.shown]);
      if f.attach.Lost? then Guarded(attached, Rejected(CrosvmFailed), false)
      else
        var stale := StalePort(Get(w.persistent.ports, d.sysName), vm, view);
        SettleTaken(cfg, attached, d, node, socket, stale, BindingFor(d, vm, port, view.generation), f)
  }

  function Connect(cfg: Config, w: World, d: UsbDevice, node: string, vm: string, socket: string,
                   preflight: Option<Guest>, changed: bool, names: seq<string>, f: AttachFaults): Guarded
    requires preflight.Some? ==> preflight.value.Live?
  {
    if preflight.None? && Listing(GuestAt(w, socket), f.listFails).None? then Guarded(w, Rejected(CrosvmFailed), false)
    else
      var view := if preflight.Some? then preflight.value else GuestAt(w, socket);
      var known := Get(w.persistent.ports, d.sysName);
      if Reusable(known, d, vm, view) then Record(cfg, w, d, node, known.value, changed, f)
      else AttachFresh(cfg, w, d, node, vm, socket, view, names, f)
  }

  /** The drivers before the claim: as found, or as configured by a probe. */
  function Configured(cfg: Config, w: World, d: UsbDevice, f: AttachFaults): map<string, Driver> {
    if cfg.hasBus && d.sysName !in w.host.drivers then w.host.drivers + f.probed else w.host.drivers
  }

  /** Configures the device if nobody has and takes host drivers off its
      interfaces; the result says whether the attach ends here. */
  function Prepare(cfg: Config, w: World, d: UsbDevice, f: AttachFaults): (r: (World, Option<AttachResult>))
    ensures r.1.None? ==> f.interfaces.Some?
  {
    var unconfigured := cfg.hasBus && d.sysName !in w.host.drivers;
    if unconfigured && f.probeFails then (w, Some(Rejected(ProbeFailed)))
    else
      var before := Configured(cfg, w, d, f);
      if f.interfaces.None? then (WithDrivers(w, before), Some(Rejected(ClaimFailed)))
      else
        var (drivers, claim) := ClaimInterfaces(before, f.interfaces.value, f.releaseFails);
        AfterClaim(WithDrivers(w, drivers), d, claim)
  }

  function AfterClaim(w: World, d: UsbDevice, claim: Claim): (World, Option<AttachResult>) {
    match claim
    case IsHub => (w.(reportedHubs := w.reportedHubs + {PersistentId(d)}), Some(SkippedHub))
    case ReleaseFailed => (w, Some(Rejected(ClaimFailed)))
    case Claimed => (w, None)
  }

  function ClaimAndConnect(cfg: Config, w: World, d: UsbDevice, node: string, vm: string, socket: string,
                           preflight: Option<Guest>, changed: bool, f: AttachFaults): Guarded
    requires preflight.Some? ==> preflight.value.Live?
  {
    var (w1, stop) := Prepare(cfg, w, d, f);
    if stop.Some? then Guarded(w1, stop.value, false)
    else Connect(cfg, w1, d, node, vm, socket, preflight, changed, f.interfaces.value, f)
  }

  predicate Armed(cfg: Config, w: World, d: UsbDevice) {
    cfg.authorization && !d.hub && Get(w.host.authorized, d.sysName) != Some(true)
  }

  /** Dropping an armed guard withdraws the authorization it gave. */
  function Drop(w: World, d: UsbDevice, armed: bool, f: AttachFaults): World {
    if armed then WithAuthorized(w, d.sysName, false, f.rollbackFails) else w
  }

  function UnderGuard(cfg: Config, w: World, d: UsbDevice, node: string, vm: string, socket: string,
                      preflight: Option<Guest>, changed: bool, f: AttachFaults): (World, AttachResult)
    requires preflight.Some? ==> preflight.value.Live?
  {
    var armed := Armed(cfg, w, d);
    if armed && (d.sysName !in w.host.authorized || f.authorizeFails)
    then (Drop(w, d, armed, f), Rejected(AuthorizeFailed))
    else
      var w1 := if armed then WithAuthorized(w, d.sysName, true, false) else w;
      var g := ClaimAndConnect(cfg, w1, d, node, vm, socket, preflight, changed, f);
      (Drop(g.world, d, armed && !g.committed, f), g.result)
  }

  /** The guard is committed on the way through. */
  predicate Commits(cfg: Config, w: World, d: UsbDevice, node: string, vm: string, socket: string,
                    preflight: Option<Guest>, changed: bool, f: AttachFaults)
    requires preflight.Some? ==> preflight.value.Live?
  {
    var armed := Armed(cfg, w, d);
    && !(armed && (d.sysName !in w.host.authorized || f.authorizeFails))
    && ClaimAndConnect(cfg, if armed then WithAuthorized(w, d.sysName, true, false) else w, d, node, vm, socket,
                       preflight, changed, f).committed
  }

  predicate Preflighted(cfg: Config, d: UsbDevice) {
    cfg.authorization && !d.hub
  }

  ghost function AttachOne(cfg: Config, w: World, d: UsbDevice, rule: UsbRule, requested: Option<string>,
                           f: AttachFaults)
    : (World, AttachResult)
  {
    match ChooseVm(w.persistent.selected, PersistentId(d), rule, requested)
    case None => (AskForVm(w, d), Pending)
    case Some(vm) =>
      if vm !in AllowedVms(rule) then (w, Rejected(NotAllowed))
      else if vm !in cfg.sockets then (w, Rejected(UnknownVm))
      else AttachTo(cfg, w, d, vm, f)
  }

  ghost function AttachTo(cfg: Config, w: World, d: UsbDevice, vm: string, f: AttachFaults): (World, AttachResult)
    requires vm in cfg.sockets
  {
    var socket := cfg.sockets[vm];
    var guest := GuestAt(w, socket);
    if cfg.authorization && guest.NoSocket? then (w, Rejected(SocketAbsent))
    else if Preflighted(cfg, d) && Listing(guest, f.preflightFails).None? then (w, Rejected(CrosvmFailed))
    else if d.node.None? then (w, Rejected(NoDeviceNode))
    else
      var node := d.node.value;
      var preflight := if Preflighted(cfg, d) then Some(guest) else None;
      var current := Get(w.usbVms, node);
      if current.Some? && current.value != vm then
        var (w1, moved) := DetachOne(cfg, w, d, false, f.move);
        if moved.Failed? then (w1, Rejected(moved.error))
        else UnderGuard(cfg, w1, d, node, vm, socket, preflight, true, f)
      else UnderGuard(cfg, w, d, node, vm, socket, preflight, current != Some(vm), f)
  }

  /** Another VM is remembered as the holder. */
  predicate MustMove(w: World, d: UsbDevice, vm: string) {
    d.node.Some? && d.node.value in w.usbVms && w.usbVms[d.node.value] != vm
  }

  /** An attach gets to the guard, and the guard is committed there. */
  ghost predicate AttachCommits(cfg: Config, w: World, d: UsbDevice, vm: string, f: AttachFaults)
    requires vm in cfg.sockets
  {
    var socket := cfg.sockets[vm];
    var guest := GuestAt(w, socket);
    && !(cfg.authorization && guest.NoSocket?)
    && !(Preflighted(cfg, d) && Listing(guest, f.preflightFails).None?)
    && d.node.Some?
    && var node := d.node.value;
       var preflight := if Preflighted(cfg, d) then Some(guest) else None;
       var current := Get(w.usbVms, node);
       if current.Some? && current.value != vm then
         var (w1, moved) := DetachOne(cfg, w, d, false, f.move);
         moved.Done? && Commits(cfg, w1, d, node, vm, socket, preflight, true, f)
       else Commits(cfg, w, d, node, vm, socket, preflight, current != Some(vm), f)
  }

  // ----- observing -----

  datatype ForgetFaults = ForgetFaults(listFails: bool, detachFails: bool, saveFails: bool)

  /** The port of an unplugged device is given back if the VM still lists the
      recorded device there. */
  function DropPort(cfg: Config, w: World, binding: Binding, f: ForgetFaults): (World, Option<Failure>)
    requires binding.vm in cfg.sockets
  {
    var socket := cfg.sockets[binding.vm];
    var guest := GuestAt(w, socket);
    if guest.NoSocket? || binding.generation != guest.generation then (w, None)
    else match Listing(guest, f.listFails)
      case None => (w, Some(CrosvmFailed))
      case Some(live) =>
        if binding.port in live && Shows(live[binding.port], binding.vid, binding.pid)
        then DetachPort(w, socket, binding.port, f.detachFails)
        else (w, None)
  }

  function ForgetGone(cfg: Config, w: World, key: string, d: UsbDevice, f: ForgetFaults): (World, Outcome) {
    var binding := Get(w.persistent.ports, key);
    if binding.Some? && binding.value.vm !in cfg.sockets then (w, Failed(UnknownVm))
    else
      var (w1, error) := if binding.Some? then DropPort(cfg, w, binding.value, f) else (w, None);
      if error.Some? then (w1, Failed(error.value)) else FinishForget(cfg, w1, key, d, f)
  }

  /** The records of an unplugged device dropped and saved. */
  function FinishForget(cfg: Config, w: World, key: string, d: UsbDevice, f: ForgetFaults): (World, Outcome) {
    var w1 := Log(w, UsbDisconnected(key));
    var w2 := w1.(usbVms := if d.node.Some? then Without(w1.usbVms, d.node.value) else w1.usbVms,
                  persistent := w1.persistent.(ports := Without(w1.persistent.ports, key)));
    if SaveFails(cfg, f.saveFails) then (w2, Failed(SaveFailed))
    else
      var s := Saved(cfg, w2, false);
      (s.(pending := s.pending - {PersistentId(d)}), Done)
  }

  function ForgetAllGone(cfg: Config, w: World, order: seq<string>, scanned: map<string, UsbDevice>,
                         fs: string -> ForgetFaults): (World, Outcome)
    decreases |order|
  {
    if order == [] then (w, Done)
    else
      var key := order[0];
      if key in scanned || key !in w.observedUsb then ForgetAllGone(cfg, w, order[1..], scanned, fs)
      else
        var (w1, outcome) := ForgetGone(cfg, w, key, w.observedUsb[key], fs(key));
        if outcome.Failed? then (w1, outcome) else ForgetAllGone(cfg, w1, order[1..], scanned, fs)
  }

  function Newcomers(observed: map<string, UsbDevice>, arrivals: seq<string>): seq<Action> {
    if arrivals == [] then []
    else (if arrivals[0] in observed then [] else [UsbConnected(arrivals[0])]) + Newcomers(observed, arrivals[1..])
  }

  /** `arrivals` and `order` are the orders in which the two tables are walked. */
  function ObserveUsb(cfg: Config, w: World, scanned: map<string, UsbDevice>, arrivals: seq<string>, order: seq<string>,
                      fs: string -> ForgetFaults): (World, Outcome)
  {
    var announced := w.(log := w.log + Newcomers(w.observedUsb, arrivals));
    var (w1, outcome) := ForgetAllGone(cfg, announced, order, scanned, fs);
    if outcome.Failed? then (w1, outcome) else (w1.(observedUsb := scanned), Done)
  }

  // ----- suspending and resuming -----

  predicate InScope(scope: Option<string>, vm: Option<string>) {
    scope.None? || (vm.Some? && vm.value == scope.value)
  }

  /** One device of a suspend; devices whose rule opts out were filtered before. */
  ghost function SuspendOne(cfg: Config, w: World, x: RoutedUsb, scope: Option<string>, f: DetachFaults): (World, bool)
  {
    var attached := Get(w.usbVms, if x.device.node.Some? then x.device.node.value else "");
    if x.rule.skipOnSuspend || attached.None? || !InScope(scope, attached) then (w, true)
    else
      var (w1, outcome) := DetachOne(cfg, w, x.device, false, f);
      (w1, outcome.Done?)
  }

  /** All devices in scan order; the flag says that nothing failed. */
  ghost function SuspendUsb(cfg: Config, w: World, devices: seq<RoutedUsb>, scope: Option<string>,
                            fs: string -> DetachFaults): (World, bool)
  {
    if devices == [] then (w, true)
    else
      var (w1, ok) := SuspendUsb(cfg, w, devices[..|devices| - 1], scope, fs);
      var x := devices[|devices| - 1];
      var (w2, last) := SuspendOne(cfg, w1, x, scope, fs(x.device.sysName));
      (w2, ok && last)
  }

  function ResumeTarget(w: World, x: RoutedUsb): Option<string> {
    if x.rule.targetVm.Some? then x.rule.targetVm else Get(w.persistent.selected, PersistentId(x.device))
  }

  ghost function ResumeOne(cfg: Config, w: World, x: RoutedUsb, scope: Option<string>, f: AttachFaults): (World, bool) {
    if PersistentId(x.device) in w.persistent.disconnected then (w, true)
    else
      var target := ResumeTarget(w, x);
      if !InScope(scope, target) then (w, true)
      else
        var (w1, result) := AttachOne(cfg, w, x.device, x.rule, target, f);
        if !result.Rejected? then (w1, true)
        else if VmStopped(cfg, w1, target) then (w1.(deferred := true), true)
        else (w1, false)
  }

  ghost function ResumeUsb(cfg: Config, w: World, devices: seq<RoutedUsb>, scope: Option<string>,
                           fs: string -> AttachFaults): (World, bool)
  {
    if devices == [] then (w, true)
    else
      var (w1, ok) := ResumeUsb(cfg, w, devices[..|devices| - 1], scope, fs);
      var x := devices[|devices| - 1];
      var (w2, last) := ResumeOne(cfg, w1, x, scope, fs(x.device.sysName));
      (w2, ok && last)
  }
}
