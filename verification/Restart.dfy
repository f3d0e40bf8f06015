/**
 Where a successful attach leaves a device in one place, exactly: in general,
 for a device plugged in again under another name, and after a restart of the
 daemon, which forgets the holders and without persistency the records too.
 */
module Restart {
  import opened Prelude
  import opened Crosvm
  import opened World
  import opened UsbSpec
  import opened Frames
  import opened Soundness
  import opened Exclusive
  import opened ReconcileSpec
  import Gate

  // ----- where a successful attach leaves a device, by ports -----

  /** The port an attach to the VM gives up: on a move, the one the detach
      releases; otherwise the one on record for the VM itself. */
  ghost predicate GivesUp(cfg: Config, w: World, d: UsbDevice, vm: string, k: string, p: nat) {
    var known := Get(w.persistent.ports, d.sysName);
    && GuestAt(w, k).Live?
    && if MustMove(w, d, vm) then
         && Get(cfg.sockets, w.usbVms[d.node.value]) == Some(k)
         && PortToRelease(GuestAt(w, k).ports, GuestAt(w, k).generation, known, d) == Ok(Some(p))
       else Get(cfg.sockets, vm) == Some(k) && OnRecord(w, d, vm, k, p)
  }

  ghost predicate OnRecord(w: World, d: UsbDevice, vm: string, k: string, p: nat) {
    var known := Get(w.persistent.ports, d.sysName);
    && GuestAt(w, k).Live?
    && known.Some? && known.value.vm == vm && known.value.generation == GuestAt(w, k).generation
        && known.value.port == p
  }

  /** The ports that show the device afterwards: one, and those that were not given up. */
  ghost predicate Moves(guests: Guests, guests': Guests, d: UsbDevice, gone: (string, nat) -> bool, k0: string,
                        p0: nat) {
    && (forall k, p :: ShowsAt(guests', k, p, d.vid, d.pid) <==>
          (k == k0 && p == p0) || (ShowsAt(guests, k, p, d.vid, d.pid) && !gone(k, p)))
    && (ShowsAt(guests, k0, p0, d.vid, d.pid) ==> gone(k0, p0))
  }

  /** What a connection that succeeds does to the ports. */
  ghost predicate Connected(w: World, guests': Guests, d: UsbDevice, vm: string, socket: string, port: nat,
                            shown: Ident) {
    var known := Get(w.persistent.ports, d.sysName);
    var guest := GuestAt(w, socket);
    && guest.Live?
    && if Reusable(known, d, vm, guest) then port == known.value.port && guests' == w.guests
       else
         && port !in guest.ports && Shows(shown, d.vid, d.pid)
         && var stale := StalePort(known, vm, guest);
            var left := if stale.Some? then Without(guest.ports, stale.value) else guest.ports;
            guests' == WithGuestPorts(w.guests, socket, left[port := shown])
  }

  lemma FreshConnects(cfg: Config, w: World, d: UsbDevice, node: string, vm: string, socket: string, view: Guest,
                      names: seq<string>, f: AttachFaults)
    requires HonestAttach(d, f) && AttachSaves(f) && !f.attach.Lost? && ListedAs(w, d, socket, view)
    requires !Reusable(Get(w.persistent.ports, d.sysName), d, vm, view)
    requires AttachFresh(cfg, w, d, node, vm, socket, view, names, f).result == Attached
    ensures f.attach.Taken?
    ensures Connected(w, AttachFresh(cfg, w, d, node, vm, socket, view, names, f).world.guests, d, vm, socket,
                      f.attach.port, f.shown)
  {
    var guest, known := GuestAt(w, socket), Get(w.persistent.ports, d.sysName);
    FreshTakesShape(cfg, w, d, node, vm, socket, view, names, f);
    assert f.attach.Taken? && f.attach.port !in guest.ports;
    var stale := StalePort(known, vm, view);
    assert stale == StalePort(known, vm, guest);
    if stale.Some? {
      var attached := WithPorts(Log(w, UsbAttachCommand(socket, node, BoundDrivers(w.host.drivers, names))), socket,
                                guest.ports[f.attach.port := f.shown]);
      CleanedShape(attached, socket, stale, f.attach.port, f.staleFails);
      assert !f.staleFails;
      assert Without(guest.ports[f.attach.port := f.shown], stale.value) ==
          Without(guest.ports, stale.value)[f.attach.port := f.shown];
    }
  }

  lemma ConnectConnects(cfg: Config, w: World, d: UsbDevice, node: string, vm: string, socket: string,
                        preflight: Option<Guest>,
                        changed: bool, names: seq<string>, f: AttachFaults) returns (port: nat)
    requires HonestAttach(d, f) && AttachSaves(f) && !f.attach.Lost?
    requires preflight.Some? ==> ListedAs(w, d, socket, preflight.value)
    requires Connect(cfg, w, d, node, vm, socket, preflight, changed, names, f).result == Attached
    ensures Connected(w, Connect(cfg, w, d, node, vm, socket, preflight, changed, names, f).world.guests, d, vm,
                      socket, port, f.shown)
  {
    var view := if preflight.Some? then preflight.value else GuestAt(w, socket);
    var known := Get(w.persistent.ports, d.sysName);
    if Reusable(known, d, vm, view) {
      port := known.value.port;
      RecordShape(cfg, w, d, node, known.value, changed, f);
    } else {
      FreshConnects(cfg, w, d, node, vm, socket, view, names, f);
      port := f.attach.port;
    }
  }

  lemma UnderGuardConnects(cfg: Config, w: World, d: UsbDevice, node: string, vm: string, socket: string,
                           preflight: Option<Guest>, changed: bool, f: AttachFaults) returns (port: nat)
    requires HonestAttach(d, f) && AttachSaves(f) && !f.attach.Lost?
    requires preflight.Some? ==> ListedAs(w, d, socket, preflight.value)
    requires UnderGuard(cfg, w, d, node, vm, socket, preflight, changed, f).1 == Attached
    ensures Connected(w, UnderGuard(cfg, w, d, node, vm, socket, preflight, changed, f).0.guests, d, vm, socket, port,
                      f.shown)
  {
    var w1 := if Armed(cfg, w, d) then WithAuthorized(w, d.sysName, true, false) else w;
    var (w2, stop) := Prepare(cfg, w1, d, f);
    PrepareFrame(cfg, w1, d, f);
    assert stop.None?;
    port := ConnectConnects(cfg, w2, d, node, vm, socket, preflight, changed, f.interfaces.value, f);
  }

  /** A connection gives up the port on record for the VM itself, and no other. */
  lemma ConnectedMoves(cfg: Config, w: World, guests': Guests, d: UsbDevice, vm: string, socket: string, port: nat,
                       shown: Ident)
    requires Get(cfg.sockets, vm) == Some(socket) && Connected(w, guests', d, vm, socket, port, shown)
    requires d.sysName in w.persistent.ports ==> Truthful(cfg, w.guests, w.persistent.ports[d.sysName])
    ensures Moves(w.guests, guests', d, (k: string, p: nat) => k == socket && OnRecord(w, d, vm, k, p), socket, port)
  {
    var known, guest := Get(w.persistent.ports, d.sysName), GuestAt(w, socket);
    if known.Some? && known.value.vm == vm && known.value.generation == guest.generation {
      assert Truthful(cfg, w.guests, known.value) && SameGeneration(guest, known.value);
    }
  }

  // ----- a move -----

  lemma ReleaseMoves(w: World, socket: string, binding: Option<Binding>, d: UsbDevice, f: DetachFaults)
    requires ReleaseFromVm(w, socket, binding, d, f).1.None?
    ensures var guest, guests' := GuestAt(w, socket), ReleaseFromVm(w, socket, binding, d, f).0.guests;
      if guest.Live? then
        var release := PortToRelease(guest.ports, guest.generation, binding, d);
        && release.Ok?
        && guests' == (if release.value.None? then w.guests
                       else WithGuestPorts(w.guests, socket, Without(guest.ports, release.value.value)))
      else guests' == w.guests
  {
  }

  ghost predicate Vacates(guests: Guests, guests': Guests, d: UsbDevice, gone: (string, nat) -> bool) {
    forall k, p :: ShowsAt(guests', k, p, d.vid, d.pid) <==> ShowsAt(guests, k, p, d.vid, d.pid) && !gone(k, p)
  }

  lemma MoveVacates(cfg: Config, w: World, d: UsbDevice, vm: string, f: DetachFaults)
    requires MustMove(w, d, vm) && DetachOne(cfg, w, d, false, f).1.Done?
    ensures Vacates(w.guests, DetachOne(cfg, w, d, false, f).0.guests, d,
                    (k: string, p: nat) => GivesUp(cfg, w, d, vm, k, p))
    ensures var a := w.usbVms[d.node.value];
      a in cfg.sockets &&
      (GuestAt(w, cfg.sockets[a]).Live? ==>
         PortToRelease(GuestAt(w, cfg.sockets[a]).ports, GuestAt(w, cfg.sockets[a]).generation,
                       Get(w.persistent.ports, d.sysName), d).Ok?)
  {
    DetachDoneShape(cfg, w, d, false, f);
    ReleaseMoves(w, cfg.sockets[w.usbVms[d.node.value]], Get(w.persistent.ports, d.sysName), d, f);
  }

  lemma MovesAfterVacating(guests: Guests, guests1: Guests, guests': Guests, d: UsbDevice, gone: (string, nat) -> bool,
                           gone': (string, nat) -> bool, k0: string, p0: nat)
    requires Vacates(guests, guests1, d, gone) && Moves(guests1, guests', d, gone', k0, p0)
    requires forall k, p :: !gone'(k, p)
    ensures Moves(guests, guests', d, gone, k0, p0)
  {
  }

  lemma MovedConnects(cfg: Config, w: World, d: UsbDevice, node: string, vm: string, socket: string,
                      preflight: Option<Guest>, f: AttachFaults) returns (port: nat)
    requires HonestAttach(d, f) && AttachSaves(f) && !f.attach.Lost? && d.node == Some(node) && MustMove(w, d, vm)
    requires Get(cfg.sockets, vm) == Some(socket)
    requires preflight.Some? ==> preflight.value == GuestAt(w, socket) && preflight.value.Live?
    requires var (w1, moved) := DetachOne(cfg, w, d, false, f.move);
      moved.Done? && UnderGuard(cfg, w1, d, node, vm, socket, preflight, true, f).1 == Attached
    ensures var w1 := DetachOne(cfg, w, d, false, f.move).0;
      Moves(w.guests, UnderGuard(cfg, w1, d, node, vm, socket, preflight, true, f).0.guests, d,
            (k: string, p: nat) => GivesUp(cfg, w, d, vm, k, p), socket, port)
  {
    var w1 := DetachOne(cfg, w, d, false, f.move).0;
    DetachDoneShape(cfg, w, d, false, f.move);
    DetachFrame(cfg, w, d, false, f.move);
    MoveVacates(cfg, w, d, vm, f.move);
    port := UnderGuardConnects(cfg, w1, d, node, vm, socket, preflight, true, f);
    var guests' := UnderGuard(cfg, w1, d, node, vm, socket, preflight, true, f).0.guests;
    ConnectedMoves(cfg, w1, guests', d, vm, socket, port, f.shown);
    MovesAfterVacating(w.guests, w1.guests, guests', d, (k: string, p: nat) => GivesUp(cfg, w, d, vm, k, p),
                       (k: string, p: nat) => k == socket && OnRecord(w1, d, vm, k, p), socket, port);
  }

  lemma StaysConnects(cfg: Config, w: World, d: UsbDevice, node: string, vm: string, socket: string,
                      preflight: Option<Guest>, changed: bool, f: AttachFaults) returns (port: nat)
    requires Inv(cfg, w) && HonestAttach(d, f) && AttachSaves(f) && !f.attach.Lost? && !MustMove(w, d, vm)
    requires Get(cfg.sockets, vm) == Some(socket)
    requires preflight.Some? ==> preflight.value == GuestAt(w, socket) && preflight.value.Live?
    requires UnderGuard(cfg, w, d, node, vm, socket, preflight, changed, f).1 == Attached
    ensures Moves(w.guests, UnderGuard(cfg, w, d, node, vm, socket, preflight, changed, f).0.guests, d,
                  (k: string, p: nat) => GivesUp(cfg, w, d, vm, k, p), socket, port)
  {
    port := UnderGuardConnects(cfg, w, d, node, vm, socket, preflight, changed, f);
    ConnectedGivesUp(cfg, w, UnderGuard(cfg, w, d, node, vm, socket, preflight, changed, f).0.guests, d, vm, socket,
                     port, f.shown);
  }

  lemma ConnectedGivesUp(cfg: Config, w: World, guests': Guests, d: UsbDevice, vm: string, socket: string, port: nat,
                         shown: Ident)
    requires Inv(cfg, w) && Get(cfg.sockets, vm) == Some(socket) && Connected(w, guests', d, vm, socket, port, shown)
    requires !MustMove(w, d, vm)
    ensures Moves(w.guests, guests', d, (k: string, p: nat) => GivesUp(cfg, w, d, vm, k, p), socket, port)
  {
    ConnectedMoves(cfg, w, guests', d, vm, socket, port, shown);
  }

  /** A successful attach puts the device at one port, takes it from the port
      it gives up, and leaves every other port that shows it. */
  lemma AttachMoves(cfg: Config, w: World, d: UsbDevice, vm: string, f: AttachFaults) returns (port: nat)
    requires Inv(cfg, w) && HonestAttach(d, f) && AttachSaves(f) && !f.attach.Lost?
    requires vm in cfg.sockets && AttachTo(cfg, w, d, vm, f).1 == Attached
    ensures Moves(w.guests, AttachTo(cfg, w, d, vm, f).0.guests, d,
                  (k: string, p: nat) => GivesUp(cfg, w, d, vm, k, p), cfg.sockets[vm], port)
  {
    var node := d.node.value;
    var socket := cfg.sockets[vm];
    var preflight := if Preflighted(cfg, d) then Some(GuestAt(w, socket)) else None;
    if MustMove(w, d, vm) {
      port := MovedConnects(cfg, w, d, node, vm, socket, preflight, f);
    } else {
      port := StaysConnects(cfg, w, d, node, vm, socket, preflight, Get(w.usbVms, node) != Some(vm), f);
    }
  }

  /** So it is in one place exactly when no port showed it before, other than
      the one given up. */
  lemma ExclusiveIffGivenUp(cfg: Config, w: World, d: UsbDevice, vm: string, f: AttachFaults)
    requires Inv(cfg, w) && HonestAttach(d, f) && AttachSaves(f) && !f.attach.Lost?
    requires vm in cfg.sockets && AttachTo(cfg, w, d, vm, f).1 == Attached
    ensures ExclusivelyHeld(AttachTo(cfg, w, d, vm, f).0.guests, d.vid, d.pid) <==>
              forall k, p :: ShowsAt(w.guests, k, p, d.vid, d.pid) ==> GivesUp(cfg, w, d, vm, k, p)
  {
    var port := AttachMoves(cfg, w, d, vm, f);
    MovesMeanExclusive(w.guests, AttachTo(cfg, w, d, vm, f).0.guests, d,
                       (k: string, p: nat) => GivesUp(cfg, w, d, vm, k, p), cfg.sockets[vm], port);
  }

  lemma MovesMeanExclusive(guests: Guests, guests': Guests, d: UsbDevice, gone: (string, nat) -> bool, k0: string,
                           p0: nat)
    requires Moves(guests, guests', d, gone, k0, p0)
    ensures ExclusivelyHeld(guests', d.vid, d.pid) <==>
              forall k, p :: ShowsAt(guests, k, p, d.vid, d.pid) ==> gone(k, p)
  {
    assert ShowsAt(guests', k0, p0, d.vid, d.pid);
  }

  // ----- the same by records -----

  /** The attach takes the port of this record back or uses it again: it is
      the device's own and of the VM that is asked first; or a move finds it
      by searching that VM for the device, having no current record of its own. */
  ghost predicate GivenUp(cfg: Config, w: World, d: UsbDevice, vm: string, s: string)
    requires s in w.persistent.ports
  {
    var b := w.persistent.ports[s];
    if MustMove(w, d, vm) then
      && Get(cfg.sockets, w.usbVms[d.node.value]) == Get(cfg.sockets, b.vm)
      && (s == d.sysName || !OwnRecordOf(w, d, b.generation))
    else s == d.sysName && b.vm == vm
  }

  ghost predicate OwnRecordOf(w: World, d: UsbDevice, generation: nat) {
    d.sysName in w.persistent.ports && w.persistent.ports[d.sysName].generation == generation
  }

  ghost predicate NoneLeft(cfg: Config, w: World, d: UsbDevice, vm: string) {
    forall s :: s in w.persistent.ports && SameIdent(w.persistent.ports[s], d)
                && Current(w.guests, w.persistent.ports[s]) ==>
                  GivenUp(cfg, w, d, vm, s)
  }

  lemma PortsToRecords(cfg: Config, w: World, d: UsbDevice, vm: string)
    requires Tallies(cfg, w)
    requires forall k, p :: ShowsAt(w.guests, k, p, d.vid, d.pid) ==> GivesUp(cfg, w, d, vm, k, p)
    ensures NoneLeft(cfg, w, d, vm)
  {
    forall s | s in w.persistent.ports && SameIdent(w.persistent.ports[s], d)
        && Current(w.guests, w.persistent.ports[s])
      ensures GivenUp(cfg, w, d, vm, s)
    {
      CurrentIsHeld(cfg, w, s);
      var b := w.persistent.ports[s];
      var k := cfg.sockets[b.vm];
      assert ShowsAt(w.guests, k, b.port, d.vid, d.pid);
      assert GivesUp(cfg, w, d, vm, k, b.port);
      if OwnRecordOf(w, d, b.generation) {
        assert Current(w.guests, w.persistent.ports[d.sysName]);
        CurrentIsHeld(cfg, w, d.sysName);
        OwnSocket(cfg, w, d, k);
        if w.persistent.ports[d.sysName].port == b.port {
          OnePerPort(cfg, w, s, d.sysName, k, b.port);
        }
      }
    }
  }

  lemma OwnSocket(cfg: Config, w: World, d: UsbDevice, k: string)
    requires Inv(cfg, w) && d.sysName in w.persistent.ports && GuestAt(w, k).Live?
    requires GuestAt(w, k).generation == w.persistent.ports[d.sysName].generation
    ensures Get(cfg.sockets, w.persistent.ports[d.sysName].vm) == Some(k)
  {
    assert Truthful(cfg, w.guests, w.persistent.ports[d.sysName]);
    assert SameGeneration(w.guests[k], w.persistent.ports[d.sysName]);
  }

  lemma RecordsToPorts(cfg: Config, w: World, d: UsbDevice, vm: string)
    requires Tallies(cfg, w) && NoneLeft(cfg, w, d, vm)
    requires MustMove(w, d, vm) ==>
               var a := w.usbVms[d.node.value];
               a in cfg.sockets &&
               (GuestAt(w, cfg.sockets[a]).Live? ==>
                  PortToRelease(GuestAt(w, cfg.sockets[a]).ports, GuestAt(w, cfg.sockets[a]).generation,
                                Get(w.persistent.ports, d.sysName), d).Ok?)
    ensures forall k, p :: ShowsAt(w.guests, k, p, d.vid, d.pid) ==> GivesUp(cfg, w, d, vm, k, p)
  {
    forall k, p | ShowsAt(w.guests, k, p, d.vid, d.pid) ensures GivesUp(cfg, w, d, vm, k, p) {
      var s := HolderExists(cfg, w, k, p);
      assert SameIdent(w.persistent.ports[s], d) && GivenUp(cfg, w, d, vm, s);
      if MustMove(w, d, vm) && s != d.sysName {
        var guest := GuestAt(w, k);
        assert p in Matching(guest.ports, d);
        OnlyOne(Matching(guest.ports, d), p);
      }
    }
  }

  /** The exact condition for a successful attach to leave the device in one
      place, where every port is on record. */
  lemma AttachExclusiveIff(cfg: Config, w: World, d: UsbDevice, vm: string, f: AttachFaults)
    requires Tallies(cfg, w) && HonestAttach(d, f) && AttachSaves(f) && !f.attach.Lost?
    requires vm in cfg.sockets && AttachTo(cfg, w, d, vm, f).1 == Attached
    ensures ExclusivelyHeld(AttachTo(cfg, w, d, vm, f).0.guests, d.vid, d.pid) <==> NoneLeft(cfg, w, d, vm)
  {
    ExclusiveIffGivenUp(cfg, w, d, vm, f);
    if NoneLeft(cfg, w, d, vm) {
      if MustMove(w, d, vm) {
        MoveVacates(cfg, w, d, vm, f.move);
      }
      RecordsToPorts(cfg, w, d, vm);
    } else if forall k, p :: ShowsAt(w.guests, k, p, d.vid, d.pid) ==> GivesUp(cfg, w, d, vm, k, p) {
      PortsToRecords(cfg, w, d, vm);
    }
  }

  /** In plainer words, unless a move goes by the memory of a holder without a
      current record, or the name's own record is of another device: nothing
      else on record looks like the device, and it can be taken from where it is. */
  lemma NoneLeftIffMovable(cfg: Config, w: World, d: UsbDevice, vm: string)
    requires Inv(cfg, w)
    requires MustMove(w, d, vm) ==> OwnRecord(w, d)
    requires OwnRecord(w, d) ==> SameIdent(w.persistent.ports[d.sysName], d)
    ensures NoneLeft(cfg, w, d, vm) <==> NoTwin(w.guests, w.persistent.ports, d) && CanMove(cfg, w, d, vm)
  {
    if OwnRecord(w, d) {
      CurrentIsHeld(cfg, w, d.sysName);
    }
    forall s | s in w.persistent.ports && s != d.sysName && Current(w.guests, w.persistent.ports[s])
      ensures NoneLeft(cfg, w, d, vm) ==> !SameIdent(w.persistent.ports[s], d)
    {
      CurrentIsHeld(cfg, w, s);
    }
  }

  // ----- a restart -----

  /** A restart empties the memory of holders. With persistency the records
      survive it; without, they are gone while the VMs keep their ports, so
      that ports and records no longer match unless no port is taken. */
  lemma RestartKeepsRecords(cfg: Config, w: World)
    requires Owns(cfg, w)
    ensures var w' := Restarted(cfg, w);
      && w'.usbVms == map[] && w'.guests == w.guests && Inv(cfg, w')
      && w'.persistent == (if cfg.persistency then w.persistent else DEFAULT_PERSISTENT)
      && (cfg.persistency ==> Owns(cfg, w'))
      && (!cfg.persistency ==> (Owns(cfg, w') <==> NoPorts(w.guests)))
  {
    if !cfg.persistency && !NoPorts(w.guests) {
      var k :| k in w.guests && w.guests[k].Live? && w.guests[k].ports != map[];
      var p :| p in w.guests[k].ports;
      assert !Recorded(map[], w.guests[k].generation, p);
    }
  }

  ghost predicate NoPorts(guests: Guests) {
    forall k :: k in guests && guests[k].Live? ==> guests[k].ports == map[]
  }

  /** The device's own record, if it is one of this device, is of this VM or out of date. */
  ghost predicate HeldByNoOther(w: World, d: UsbDevice, vm: string) {
    OwnRecord(w, d) && SameIdent(w.persistent.ports[d.sysName], d) ==> w.persistent.ports[d.sysName].vm == vm
  }

  /** After a restart a successful attach leaves the device in one place if and
      only if, in the world before it: with persistency, no other name had a
      current record of the device, and its own was of the requested VM or out
      of date; without, no name had a current record of it at all. */
  lemma RestartExclusiveIff(cfg: Config, w: World, d: UsbDevice, vm: string, f: AttachFaults)
    requires Tallies(cfg, w) && HonestAttach(d, f) && AttachSaves(f) && !f.attach.Lost?
    requires vm in cfg.sockets && AttachTo(cfg, Restarted(cfg, w), d, vm, f).1 == Attached
    ensures ExclusivelyHeld(AttachTo(cfg, Restarted(cfg, w), d, vm, f).0.guests, d.vid, d.pid) <==>
              if cfg.persistency then NoTwin(w.guests, w.persistent.ports, d) && HeldByNoOther(w, d, vm)
              else forall s :: s in w.persistent.ports && SameIdent(w.persistent.ports[s], d) ==>
                               !Current(w.guests, w.persistent.ports[s])
  {
    var w' := Restarted(cfg, w);
    if cfg.persistency {
      AttachExclusiveIff(cfg, w', d, vm, f);
    } else {
      ExclusiveIffGivenUp(cfg, w', d, vm, f);
      ShownIffCurrent(cfg, w, d);
    }
  }

  lemma ShownIffCurrent(cfg: Config, w: World, d: UsbDevice)
    requires Tallies(cfg, w)
    ensures (exists k, p :: ShowsAt(w.guests, k, p, d.vid, d.pid)) <==>
              exists s :: s in w.persistent.ports && SameIdent(w.persistent.ports[s], d)
                          && Current(w.guests, w.persistent.ports[s])
  {
    if k, p :| ShowsAt(w.guests, k, p, d.vid, d.pid) {
      var s := HolderExists(cfg, w, k, p);
    }
    if s :| s in w.persistent.ports && SameIdent(w.persistent.ports[s], d) && Current(w.guests, w.persistent.ports[s]) {
      CurrentIsHeld(cfg, w, s);
      var b := w.persistent.ports[s];
      assert ShowsAt(w.guests, cfg.sockets[b.vm], b.port, d.vid, d.pid);
    }
  }

  // ----- names that were never observed -----

  lemma {:induction false} ForgetAllKeepsUnobserved(cfg: Config, w: World, order: seq<string>,
                                                    scanned: map<string, UsbDevice>,
                                                    fs: string -> ForgetFaults, s: string)
    requires s !in w.observedUsb
    ensures var w' := ForgetAllGone(cfg, w, order, scanned, fs).0;
      Get(w'.persistent.ports, s) == Get(w.persistent.ports, s) && w'.observedUsb == w.observedUsb
          && SameVms(w.guests, w'.guests)
    decreases |order|
  {
    if order != [] {
      var key := order[0];
      if key in scanned || key !in w.observedUsb {
        ForgetAllKeepsUnobserved(cfg, w, order[1..], scanned, fs, s);
      } else {
        var (w1, outcome) := ForgetGone(cfg, w, key, w.observedUsb[key], fs(key));
        ForgetGoneKeepsOthers(cfg, w, key, w.observedUsb[key], fs(key), s);
        if outcome.Done? {
          ForgetAllKeepsUnobserved(cfg, w1, order[1..], scanned, fs, s);
        }
      }
    }
  }

  lemma ForgetGoneKeepsOthers(cfg: Config, w: World, key: string, d: UsbDevice, f: ForgetFaults, s: string)
    requires s != key
    ensures var w' := ForgetGone(cfg, w, key, d, f).0;
      Get(w'.persistent.ports, s) == Get(w.persistent.ports, s) && w'.observedUsb == w.observedUsb
          && SameVms(w.guests, w'.guests)
  {
    if key in w.persistent.ports && w.persistent.ports[key].vm in cfg.sockets {
      DropPortFrame(cfg, w, w.persistent.ports[key], f);
      FinishForgetShape(cfg, DropPort(cfg, w, w.persistent.ports[key], f).0, key, d, f);
    } else {
      FinishForgetShape(cfg, w, key, d, f);
    }
  }

  /** Observation clears no record of a name it has not seen plugged in: such a
      record stays, current if it was, and stays unseen unless a scan shows it. */
  lemma UnobservedStaysOnRecord(cfg: Config, w: World, scanned: map<string, UsbDevice>, arrivals: seq<string>,
                                order: seq<string>, fs: string -> ForgetFaults, s: string)
    requires s in w.persistent.ports && s !in w.observedUsb
    ensures var w' := ObserveUsb(cfg, w, scanned, arrivals, order, fs).0;
      && s in w'.persistent.ports && w'.persistent.ports[s] == w.persistent.ports[s]
      && (Current(w.guests, w.persistent.ports[s]) ==> Current(w'.guests, w'.persistent.ports[s]))
      && (s !in scanned ==> s !in w'.observedUsb)
  {
    var announced := w.(log := w.log + Newcomers(w.observedUsb, arrivals));
    ForgetAllKeepsUnobserved(cfg, announced, order, scanned, fs, s);
    SameVmsKeepCurrent(w.guests, ObserveUsb(cfg, w, scanned, arrivals, order, fs).0.guests, w.persistent.ports[s]);
  }

  // ----- worlds in which the condition fails -----

  function ExampleConfig(persistency: bool): Config {
    Config(map["a" := "sa", "b" := "sb"], false, persistency, false)
  }

  const EXAMPLE_DEVICE: UsbDevice := UsbDevice("1-2", Some("n"), Some("v"), Some("p"), None, false)
  const REPLUGGED: UsbDevice := UsbDevice("1-3", Some("n3"), Some("v"), Some("p"), None, false)
  const EXAMPLE_BINDING: Binding := Binding("a", 0, 1, Some("v"), Some("p"), None)
  const EXAMPLE_SAVED: Persistent := Persistent(map[], [], map["1-2" := EXAMPLE_BINDING])
  const EXAMPLE_WORLD: World := World(
    EXAMPLE_SAVED, EXAMPLE_SAVED, map["n" := "a"], map[], {}, map[], {}, {}, false, map[],
    map["sa" := Live(1, map[0 := Ident("v", "p")], {}), "sb" := Live(2, map[], {})],
    Host(map[], map[], map[]), [], [])
  const EXAMPLE_FAULTS: AttachFaults := AttachFaults(
    false, DetachFaults(false, false, false, false, false), false, false, false, map[], Some([]), {}, false,
    Taken(0), Ident("v", "p"), false, false, false, false)

  lemma ExampleOwns(persistency: bool)
    ensures Owns(ExampleConfig(persistency), EXAMPLE_WORLD)
    ensures Current(EXAMPLE_WORLD.guests, EXAMPLE_BINDING)
  {
    assert "sa"[1] != "sb"[1];
    var guests := EXAMPLE_WORLD.guests;
    assert Truthful(ExampleConfig(persistency), guests, EXAMPLE_BINDING);
    assert EXAMPLE_SAVED.ports["1-2"] == EXAMPLE_BINDING;
    assert guests["sa"].generation == EXAMPLE_BINDING.generation;
  }

  /** The VMs and the host are as in the example, and what is on record for
      the device is of VM a at most. */
  ghost predicate LikeExample(w: World, d: UsbDevice) {
    && w.guests == EXAMPLE_WORLD.guests && w.host == EXAMPLE_WORLD.host
    && d.node.Some? && d.node.value !in w.usbVms && d.vid == Some("v") && d.pid == Some("p") && !d.hub
    && (d.sysName in w.persistent.ports ==> w.persistent.ports[d.sysName].vm == "a")
  }

  lemma ExampleAttaches(persistency: bool, w: World, d: UsbDevice)
    requires LikeExample(w, d)
    ensures AttachTo(ExampleConfig(persistency), w, d, "b", EXAMPLE_FAULTS).1 == Attached
  {
    assert "sa"[1] != "sb"[1] && "a"[0] != "b"[0];
    var cfg, node := ExampleConfig(persistency), d.node.value;
    assert ClaimInterfaces(w.host.drivers, [], {}) == (w.host.drivers, Claimed);
    var (w1, stop) := Prepare(cfg, w, d, EXAMPLE_FAULTS);
    assert w1 == w && stop == None;
    var g := Connect(cfg, w, d, node, "b", "sb", None, true, [], EXAMPLE_FAULTS);
    assert g.result == Attached by {
      assert !Reusable(Get(w.persistent.ports, d.sysName), d, "b", GuestAt(w, "sb"));
      assert g == AttachFresh(cfg, w, d, node, "b", "sb", GuestAt(w, "sb"), [], EXAMPLE_FAULTS);
    }
  }

  /** A successful attach to the VM leaves the device in two places. */
  ghost predicate Duplicates(cfg: Config, w: World, d: UsbDevice, vm: string, f: AttachFaults) {
    && vm in cfg.sockets && HonestAttach(d, f) && AttachSaves(f) && !f.attach.Lost?
    && AttachTo(cfg, w, d, vm, f).1 == Attached
    && !ExclusivelyHeld(AttachTo(cfg, w, d, vm, f).0.guests, d.vid, d.pid)
  }

  /** The VM of the example lists the device, so another place makes two. */
  lemma ExampleDuplicates(persistency: bool, w: World, d: UsbDevice)
    requires LikeExample(w, d) && Inv(ExampleConfig(persistency), w)
    ensures Duplicates(ExampleConfig(persistency), w, d, "b", EXAMPLE_FAULTS)
  {
    assert "sa"[1] != "sb"[1] && "a"[0] != "b"[0];
    var cfg, f := ExampleConfig(persistency), EXAMPLE_FAULTS;
    ExampleAttaches(persistency, w, d);
    var port := StaysConnects(cfg, w, d, d.node.value, "b", "sb", None, true, f);
    MovesMeanExclusive(w.guests, AttachTo(cfg, w, d, "b", f).0.guests, d,
                       (k: string, p: nat) => GivesUp(cfg, w, d, "b", k, p), "sb", port);
    assert ShowsAt(w.guests, "sa", 0, d.vid, d.pid) && !GivesUp(cfg, w, d, "b", "sa", 0);
  }

  /** After a restart of an orderly daemon, with the records saved or with
      persistency off, where the new process even finds the device movable. */
  lemma RestartCanDuplicate(persistency: bool)
    ensures var cfg := ExampleConfig(persistency);
      && Owns(cfg, EXAMPLE_WORLD) && Duplicates(cfg, Restarted(cfg, EXAMPLE_WORLD), EXAMPLE_DEVICE, "b", EXAMPLE_FAULTS)
      && (!persistency ==> CanMove(cfg, Restarted(cfg, EXAMPLE_WORLD), EXAMPLE_DEVICE, "b"))
  {
    ExampleOwns(persistency);
    RestartKeepsRecords(ExampleConfig(persistency), EXAMPLE_WORLD);
    ExampleDuplicates(persistency, Restarted(ExampleConfig(persistency), EXAMPLE_WORLD), EXAMPLE_DEVICE);
  }

  /** In a daemon that keeps running, for the device plugged in under another
      name and attached before the next observation: it is movable and has no
      record of its own, but the old name has one. */
  lemma ReplugCanDuplicate(persistency: bool)
    ensures var cfg := ExampleConfig(persistency);
      && Owns(cfg, EXAMPLE_WORLD) && CanMove(cfg, EXAMPLE_WORLD, REPLUGGED, "b") && !OwnRecord(EXAMPLE_WORLD, REPLUGGED)
      && !NoTwin(EXAMPLE_WORLD.guests, EXAMPLE_WORLD.persistent.ports, REPLUGGED)
      && Duplicates(cfg, EXAMPLE_WORLD, REPLUGGED, "b", EXAMPLE_FAULTS)
  {
    assert "1-2"[2] != "1-3"[2] && |"n"| != |"n3"|;
    ExampleOwns(persistency);
    assert EXAMPLE_WORLD.persistent.ports["1-2"] == EXAMPLE_BINDING;
    ExampleDuplicates(persistency, EXAMPLE_WORLD, REPLUGGED);
  }

  // ----- for good, where the replug happened while the daemon was down -----

  /** A plain pass: nothing is gated or swept, the one routed device is the
      replugged one, and its rule sends it to VM b. */
  ghost predicate PlainPass(p: Pass) {
    && !p.gate.active && !p.observeFails && !p.usbScanFails && !p.sweepEnabled
    && p.usb == [RoutedUsb(REPLUGGED, UsbRule(Some("b"), [], false))] && p.pci == []
    && p.attach(REPLUGGED.sysName) == EXAMPLE_FAULTS
  }

  /** With records saved, a restart and a plain reconciliation are enough: the
      observation clears nothing it has not seen before, and the resume then
      attaches the device a second time. */
  lemma ReconcileCanDuplicate(p: Pass, pciOrder: seq<string>)
    requires PlainPass(p)
    ensures var cfg := ExampleConfig(true);
      var w' := Reconciled(cfg, Restarted(cfg, EXAMPLE_WORLD), p, pciOrder).0;
      Owns(cfg, EXAMPLE_WORLD) && !ExclusivelyHeld(w'.guests, REPLUGGED.vid, REPLUGGED.pid)
  {
    var cfg := ExampleConfig(true);
    ExampleOwns(true);
    var w := Restarted(cfg, EXAMPLE_WORLD);
    RestartKeepsRecords(cfg, EXAMPLE_WORLD);
    GateRests(cfg, w, p.gate);
    ObservedLikeExample(cfg, w, p, pciOrder);
    var (observed, w1, w2) := Stages(cfg, w, p, pciOrder);
    assert w1 == observed;
    ExampleDuplicates(true, w1, REPLUGGED);
    ResumesOne(cfg, w1, p);
  }

  lemma GateRests(cfg: Config, w: World, gate: Gate.Pass)
    requires !gate.active && !cfg.authorization
    ensures Gated(cfg, w, gate) == w
  {
  }

  lemma ObservedLikeExample(cfg: Config, w: World, p: Pass, pciOrder: seq<string>)
    requires PlainPass(p) && w == Restarted(cfg, EXAMPLE_WORLD) && cfg == ExampleConfig(true) && Inv(cfg, w)
    ensures var (w', outcome) := ObserveAll(cfg, w.(deferred := false), p, pciOrder);
      outcome.Done? && LikeExample(w', REPLUGGED) && Inv(cfg, w') && w'.persistent.disconnected == []
  {
    assert "1-2"[2] != "1-3"[2];
    var reset := w.(deferred := false);
    NoneObservedStays(cfg, reset.(log := reset.log + Newcomers(reset.observedUsb, p.arrivals)), p.order,
                      ScanMap(p.usb), p.forget);
  }

  lemma {:induction false} NoneObservedStays(cfg: Config, w: World, order: seq<string>, scanned: map<string, UsbDevice>,
                                             fs: string -> ForgetFaults)
    requires w.observedUsb == map[]
    ensures ForgetAllGone(cfg, w, order, scanned, fs) == (w, Done)
    decreases |order|
  {
    if order != [] {
      NoneObservedStays(cfg, w, order[1..], scanned, fs);
    }
  }

  lemma ResumesOne(cfg: Config, w: World, p: Pass)
    requires PlainPass(p) && w.persistent.disconnected == [] && "b" in cfg.sockets
    requires AttachTo(cfg, w, REPLUGGED, "b", EXAMPLE_FAULTS).1 == Attached
    ensures UsbPass(cfg, w, p).0 == AttachTo(cfg, w, REPLUGGED, "b", EXAMPLE_FAULTS).0
  {
    var x := p.usb[0];
    assert p.usb[..0] == [];
    assert ResumeUsb(cfg, w, p.usb, None, p.attach).0 == ResumeOne(cfg, w, x, None, EXAMPLE_FAULTS).0;
    assert AttachOne(cfg, w, REPLUGGED, x.rule, Some("b"), EXAMPLE_FAULTS) ==
           AttachTo(cfg, w, REPLUGGED, "b", EXAMPLE_FAULTS);
  }
}
