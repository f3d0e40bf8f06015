/**
 Exclusive ownership: while every port of every running VM is on record and
 no two current records have the same vendor and product, a device is held by
 at most one VM at one port. What each operation needs to keep it so.
 */
module Exclusive {
  import opened Prelude
  import opened World
  import opened UsbSpec
  import opened Frames
  import opened Soundness

  ghost predicate Recorded(bindings: Bindings, generation: nat, port: nat) {
    exists s :: s in bindings && bindings[s].generation == generation && bindings[s].port == port
  }

  /** Every port of every running VM is one the manager has on record. */
  ghost predicate AllRecorded(guests: Guests, bindings: Bindings) {
    forall k, p :: k in guests && guests[k].Live? && p in guests[k].ports ==>
                   Recorded(bindings, guests[k].generation, p)
  }

  /** Records are true, and no port is missing from them. */
  ghost predicate Tallies(cfg: Config, w: World) {
    Inv(cfg, w) && AllRecorded(w.guests, w.persistent.ports)
  }

  ghost predicate DistinctCurrent(guests: Guests, bindings: Bindings) {
    forall s, s' :: s in bindings && s' in bindings && s != s' && Current(guests, bindings[s])
                    && Current(guests, bindings[s']) ==>
                      !(bindings[s].vid == bindings[s'].vid && bindings[s].pid == bindings[s'].pid)
  }

  ghost predicate Owns(cfg: Config, w: World) {
    Tallies(cfg, w) && DistinctCurrent(w.guests, w.persistent.ports)
  }

  ghost predicate ShowsAt(guests: Guests, k: string, p: nat, vid: Option<string>, pid: Option<string>) {
    k in guests && guests[k].Live? && p in guests[k].ports && Shows(guests[k].ports[p], vid, pid)
  }

  /** A device shows up at no two places at once. */
  ghost predicate ExclusivelyHeld(guests: Guests, vid: Option<string>, pid: Option<string>) {
    forall k, p, k', p' :: ShowsAt(guests, k, p, vid, pid) && ShowsAt(guests, k', p', vid, pid) ==> k == k' && p == p'
  }

  /** Binding s is the current record of port p of the VM behind socket k. */
  ghost predicate HolderOf(cfg: Config, w: World, s: string, k: string, p: nat)
    requires s in w.persistent.ports
  {
    var b := w.persistent.ports[s];
    && b.vm in cfg.sockets && cfg.sockets[b.vm] == k
    && k in w.guests && w.guests[k].Live? && w.guests[k].generation == b.generation && b.port == p
    && p in w.guests[k].ports && Shows(w.guests[k].ports[p], b.vid, b.pid)
  }

  lemma OnePerPort(cfg: Config, w: World, s: string, s': string, k: string, p: nat)
    requires Inv(cfg, w) && s in w.persistent.ports && s' in w.persistent.ports
    requires HolderOf(cfg, w, s, k, p) && HolderOf(cfg, w, s', k, p)
    ensures s == s'
  {
    assert SameGeneration(w.guests[k], w.persistent.ports[s]) && SameGeneration(w.guests[k], w.persistent.ports[s']);
    assert s == s' || Apart(w.guests, w.persistent.ports[s], w.persistent.ports[s']);
  }

  lemma HolderExists(cfg: Config, w: World, k: string, p: nat) returns (s: string)
    requires Tallies(cfg, w)
    requires k in w.guests && w.guests[k].Live? && p in w.guests[k].ports
    ensures s in w.persistent.ports && HolderOf(cfg, w, s, k, p) && Current(w.guests, w.persistent.ports[s])
  {
    assert Recorded(w.persistent.ports, w.guests[k].generation, p);
    s :| s in w.persistent.ports && w.persistent.ports[s].generation == w.guests[k].generation
        && w.persistent.ports[s].port == p;
    assert Truthful(cfg, w.guests, w.persistent.ports[s]);
    assert SameGeneration(w.guests[k], w.persistent.ports[s]);
  }

  /** A current record is the record of a port. */
  lemma CurrentIsHeld(cfg: Config, w: World, s: string)
    requires Inv(cfg, w) && s in w.persistent.ports && Current(w.guests, w.persistent.ports[s])
    ensures var b := w.persistent.ports[s]; b.vm in cfg.sockets && HolderOf(cfg, w, s, cfg.sockets[b.vm], b.port)
  {
    var b := w.persistent.ports[s];
    var k :| k in w.guests && w.guests[k].Live? && w.guests[k].generation == b.generation;
    assert Truthful(cfg, w.guests, b) && SameGeneration(w.guests[k], b);
  }

  /** Live ports and current bindings correspond one to one, and whatever
      vid:pid a port shows, no other port of any VM shows it. */
  lemma OwnsMeansExclusive(cfg: Config, w: World)
    requires Owns(cfg, w)
    ensures forall vid, pid :: ExclusivelyHeld(w.guests, vid, pid)
    ensures forall k, p :: k in w.guests && w.guests[k].Live? && p in w.guests[k].ports ==>
              exists s :: s in w.persistent.ports && HolderOf(cfg, w, s, k, p)
    ensures forall s, s', k, p | s in w.persistent.ports && s' in w.persistent.ports
              && HolderOf(cfg, w, s, k, p) && HolderOf(cfg, w, s', k, p) :: s == s'
  {
    forall k, p | k in w.guests && w.guests[k].Live? && p in w.guests[k].ports
      ensures exists s :: s in w.persistent.ports && HolderOf(cfg, w, s, k, p)
    {
      var s := HolderExists(cfg, w, k, p);
    }
    forall s, s', k, p | s in w.persistent.ports && s' in w.persistent.ports
              && HolderOf(cfg, w, s, k, p) && HolderOf(cfg, w, s', k, p)
      ensures s == s'
    {
      OnePerPort(cfg, w, s, s', k, p);
    }
    ExclusiveIffDistinct(cfg, w);
  }

  /** Where every port is on record, no device shows at two places exactly
      when no two current records have the same vendor and product. */
  lemma ExclusiveIffDistinct(cfg: Config, w: World)
    requires Tallies(cfg, w)
    ensures (forall vid, pid :: ExclusivelyHeld(w.guests, vid, pid)) <==> DistinctCurrent(w.guests, w.persistent.ports)
  {
    var bindings := w.persistent.ports;
    if DistinctCurrent(w.guests, bindings) {
      forall vid, pid, k, p, k', p' | ShowsAt(w.guests, k, p, vid, pid) && ShowsAt(w.guests, k', p', vid, pid)
        ensures k == k' && p == p'
      {
        var s := HolderExists(cfg, w, k, p);
        var s' := HolderExists(cfg, w, k', p');
        assert s == s';
      }
    }
    if forall vid, pid :: ExclusivelyHeld(w.guests, vid, pid) {
      forall s, s' | s in bindings && s' in bindings && s != s' && Current(w.guests, bindings[s])
          && Current(w.guests, bindings[s'])
        ensures !(bindings[s].vid == bindings[s'].vid && bindings[s].pid == bindings[s'].pid)
      {
        CurrentIsHeld(cfg, w, s);
        CurrentIsHeld(cfg, w, s');
        var b, b' := bindings[s], bindings[s'];
        if b.vid == b'.vid && b.pid == b'.pid {
          assert ExclusivelyHeld(w.guests, b.vid, b.pid);
          assert ShowsAt(w.guests, cfg.sockets[b.vm], b.port, b.vid, b.pid)
              && ShowsAt(w.guests, cfg.sockets[b'.vm], b'.port, b.vid, b.pid);
          OnePerPort(cfg, w, s, s', cfg.sockets[b.vm], b.port);
        }
      }
    }
  }

  /** Only guests, ports and the saved copy matter. */
  lemma OwnsDepends(cfg: Config, w: World, w': World)
    requires Owns(cfg, w)
    requires w'.guests == w.guests && w'.persistent.ports == w.persistent.ports
        && (cfg.persistency ==> w'.disk == w'.persistent)
    ensures Owns(cfg, w')
  {
  }

  // ----- detaching -----

  /** The device's own record is current, for a VM behind this socket. */
  ghost predicate OwnRecord(w: World, d: UsbDevice) {
    d.sysName in w.persistent.ports && Current(w.guests, w.persistent.ports[d.sysName])
  }

  /** The VM the manager remembers for the device is the one on record. */
  ghost predicate MemoryRight(cfg: Config, w: World, d: UsbDevice) {
    OwnRecord(w, d) && d.node.Some? && d.node.value in w.usbVms ==>
      Get(cfg.sockets, w.usbVms[d.node.value]) == Get(cfg.sockets, w.persistent.ports[d.sysName].vm)
  }

  /** What a release under full tracking does: it takes back exactly the
      recorded port if there is one, and otherwise touches nothing. */
  lemma ReleaseIsExact(cfg: Config, w: World, d: UsbDevice, vm: string, f: DetachFaults)
    requires Tallies(cfg, w) && NoTwin(w.guests, w.persistent.ports, d) && vm in cfg.sockets
    requires OwnRecord(w, d) ==> Get(cfg.sockets, w.persistent.ports[d.sysName].vm) == Some(cfg.sockets[vm])
    ensures var (w1, error) := ReleaseFromVm(w, cfg.sockets[vm], Get(w.persistent.ports, d.sysName), d, f);
      error.None? ==> GivesBack(cfg, w, w1.guests, d)
  {
    var socket := cfg.sockets[vm];
    var guest := GuestAt(w, socket);
    if OwnRecord(w, d) {
      CurrentIsHeld(cfg, w, d.sysName);
    } else if guest.Live? {
      forall p | p in guest.ports ensures !Shows(guest.ports[p], d.vid, d.pid) {
        var s := HolderExists(cfg, w, socket, p);
        assert s != d.sysName;
      }
      assert Matching(guest.ports, d) == {};
    }
  }

  /** The device's recorded port is taken back, or it has none and nothing is. */
  ghost predicate GivesBack(cfg: Config, w: World, guests': Guests, d: UsbDevice) {
    if !OwnRecord(w, d) then guests' == w.guests
    else
      var b := w.persistent.ports[d.sysName];
      && b.vm in cfg.sockets
      && var k := cfg.sockets[b.vm];
         HolderOf(cfg, w, d.sysName, k, b.port)
             && guests' == WithGuestPorts(w.guests, k, Without(w.guests[k].ports, b.port))
  }

  /** Dropping the record together with the port keeps the tally. */
  lemma DropKeepsTally(cfg: Config, w: World, d: UsbDevice, guests': Guests)
    requires Owns(cfg, w) && GivesBack(cfg, w, guests', d)
    ensures AllRecorded(guests', Without(w.persistent.ports, d.sysName))
    ensures DistinctCurrent(guests', Without(w.persistent.ports, d.sysName))
  {
    var left := Without(w.persistent.ports, d.sysName);
    forall k, p | k in guests' && guests'[k].Live? && p in guests'[k].ports
      ensures Recorded(left, guests'[k].generation, p) {
      var s := HolderExists(cfg, w, k, p);
      assert s != d.sysName;
      assert s in left;
    }
    SameVmsKeepDistinct(w.guests, guests', w.persistent.ports);
  }

  lemma SameVmsKeepDistinct(guests: Guests, guests': Guests, bindings: Bindings)
    requires SameVms(guests, guests') && DistinctCurrent(guests, bindings)
    ensures DistinctCurrent(guests', bindings)
  {
    forall s | s in bindings ensures Current(guests', bindings[s]) == Current(guests, bindings[s]) {
      SameVmsKeepCurrent(guests, guests', bindings[s]);
    }
  }

  lemma DetachIsExclusive(cfg: Config, w: World, d: UsbDevice, permanent: bool, f: DetachFaults)
    requires Owns(cfg, w) && Identifiable(w, d) && MemoryRight(cfg, w, d) && DetachSaves(f)
    ensures Owns(cfg, DetachOne(cfg, w, d, permanent, f).0)
  {
    DetachIsSound(cfg, w, d, permanent, f);
    var (w', outcome) := DetachOne(cfg, w, d, permanent, f);
    if outcome.Done? {
      DetachDone(cfg, w, d, permanent, f);
    } else {
      DetachFailsClean(cfg, w, d, permanent, f);
    }
  }

  /** With saves that succeed, a detach that fails leaves all ports alone. */
  lemma DetachFailsClean(cfg: Config, w: World, d: UsbDevice, permanent: bool, f: DetachFaults)
    requires DetachSaves(f) && DetachOne(cfg, w, d, permanent, f).1.Failed?
    ensures var w' := DetachOne(cfg, w, d, permanent, f).0;
      w'.guests == w.guests && w'.persistent == w.persistent && w'.disk == w.disk && w'.usbVms == w.usbVms
  {
    if d.node.Some? {
      var holder := Holder(w, d, d.node.value);
      if holder.Some? && holder.value in cfg.sockets {
        ReleaseShape(w, cfg.sockets[holder.value], Get(w.persistent.ports, d.sysName), d, f);
        var w1 := ReleaseFromVm(w, cfg.sockets[holder.value], Get(w.persistent.ports, d.sysName), d, f).0;
        FinishSaves(cfg, Log(w1, UsbDetached(d.node.value, holder.value)), d, d.node.value, permanent, f);
      } else {
        FinishSaves(cfg, w, d, d.node.value, permanent, f);
      }
    }
  }

  lemma DetachDone(cfg: Config, w: World, d: UsbDevice, permanent: bool, f: DetachFaults)
    requires Owns(cfg, w) && Identifiable(w, d) && MemoryRight(cfg, w, d)
    requires DetachOne(cfg, w, d, permanent, f).1.Done?
    ensures var w' := DetachOne(cfg, w, d, permanent, f).0;
      AllRecorded(w'.guests, w'.persistent.ports) && DistinctCurrent(w'.guests, w'.persistent.ports)
  {
    DetachDoneShape(cfg, w, d, permanent, f);
    var holder := Holder(w, d, d.node.value);
    if OwnRecord(w, d) {
      CurrentIsHeld(cfg, w, d.sysName);
    }
    if holder.Some? {
      ReleaseIsExact(cfg, w, d, holder.value, f);
    }
    DropKeepsTally(cfg, w, d, DetachOne(cfg, w, d, permanent, f).0.guests);
  }

  // ----- attaching -----

  /** A move takes the device from the VM that has it, and without a move it
      stays with the VM that has it. */
  ghost predicate CanMove(cfg: Config, w: World, d: UsbDevice, vm: string) {
    OwnRecord(w, d) ==>
      var b := w.persistent.ports[d.sysName];
      if MustMove(w, d, vm) then Get(cfg.sockets, w.usbVms[d.node.value]) == Get(cfg.sockets, b.vm) else b.vm == vm
  }

  /** Nothing fails once Crosvm has the device: the attach is not lost, and
      the stale port of another device under its name is given back. */
  ghost predicate Settles(w: World, d: UsbDevice, f: AttachFaults) {
    && !f.attach.Lost?
    && (f.staleFails && OwnRecord(w, d) ==>
          var b := w.persistent.ports[d.sysName]; SameIdent(b, d) && b.serial == d.serial)
  }

  /** What is left of this once the device has been moved, if it had to be. */
  ghost predicate AtHome(w: World, d: UsbDevice, vm: string) {
    OwnRecord(w, d) ==> w.persistent.ports[d.sysName].vm == vm
  }

  lemma AttachFreshIsExclusive(cfg: Config, w: World, d: UsbDevice, node: string, vm: string, socket: string,
                               view: Guest, names: seq<string>, f: AttachFaults)
    requires Owns(cfg, w) && NoTwin(w.guests, w.persistent.ports, d) && AtHome(w, d, vm)
    requires HonestAttach(d, f) && AttachSaves(f) && Settles(w, d, f)
    requires vm in cfg.sockets && cfg.sockets[vm] == socket && ListedAs(w, d, socket, view)
    requires !Reusable(Get(w.persistent.ports, d.sysName), d, vm, view)
    ensures Owns(cfg, AttachFresh(cfg, w, d, node, vm, socket, view, names, f).world)
  {
    AttachFreshIsSound(cfg, w, d, node, vm, socket, view, names, f);
    FreshTakesShape(cfg, w, d, node, vm, socket, view, names, f);
    FreshShapeIsExclusive(cfg, w, AttachFresh(cfg, w, d, node, vm, socket, view, names, f).world, d, vm, socket, view,
                          f);
  }

  lemma FreshShapeIsExclusive(cfg: Config, w: World, w': World, d: UsbDevice, vm: string, socket: string, view: Guest,
                              f: AttachFaults)
    requires Owns(cfg, w) && NoTwin(w.guests, w.persistent.ports, d) && AtHome(w, d, vm) && Settles(w, d, f)
    requires vm in cfg.sockets && cfg.sockets[vm] == socket && ListedAs(w, d, socket, view)
    requires !Reusable(Get(w.persistent.ports, d.sysName), d, vm, view)
    requires FreshShape(cfg, w, w', d, vm, socket, view, f)
    ensures AllRecorded(w'.guests, w'.persistent.ports) && DistinctCurrent(w'.guests, w'.persistent.ports)
  {
    if !f.attach.Refused? && f.attach.port !in GuestAt(w, socket).ports {
      OwnIsStale(cfg, w, d, vm, socket, view);
      FreshIsRecorded(cfg, w, w', d, vm, socket, view, f);
      FreshIsDistinct(w, w', d, BindingFor(d, vm, f.attach.port, view.generation));
    }
  }

  /** A current record that cannot be reused is the stale one. */
  lemma OwnIsStale(cfg: Config, w: World, d: UsbDevice, vm: string, socket: string, view: Guest)
    requires Inv(cfg, w) && AtHome(w, d, vm)
    requires vm in cfg.sockets && cfg.sockets[vm] == socket && ListedAs(w, d, socket, view)
    requires !Reusable(Get(w.persistent.ports, d.sysName), d, vm, view)
    ensures OwnRecord(w, d) ==>
              var b := w.persistent.ports[d.sysName];
              && StalePort(Some(b), vm, view) == Some(b.port) && HolderOf(cfg, w, d.sysName, socket, b.port)
              && !(SameIdent(b, d) && b.serial == d.serial)
    ensures StalePort(Get(w.persistent.ports, d.sysName), vm, view).Some? ==> OwnRecord(w, d)
  {
    if OwnRecord(w, d) {
      CurrentIsHeld(cfg, w, d.sysName);
    }
  }

  lemma FreshIsRecorded(cfg: Config, w: World, w': World, d: UsbDevice, vm: string, socket: string, view: Guest,
                        f: AttachFaults)
    requires Tallies(cfg, w) && Settles(w, d, f) && GuestAt(w, socket).Live? && view.Live?
    requires view.generation == GuestAt(w, socket).generation
    requires !f.attach.Refused? && f.attach.port !in GuestAt(w, socket).ports
        && FreshShape(cfg, w, w', d, vm, socket, view, f)
    requires var stale := StalePort(Get(w.persistent.ports, d.sysName), vm, view);
      if OwnRecord(w, d) then
        var b := w.persistent.ports[d.sysName];
        stale == Some(b.port) && HolderOf(cfg, w, d.sysName, socket, b.port)
            && !(SameIdent(b, d) && b.serial == d.serial)
      else stale.None?
    ensures AllRecorded(w'.guests, w'.persistent.ports)
    ensures w'.persistent.ports == w.persistent.ports[d.sysName := BindingFor(d, vm, f.attach.port, view.generation)]
    ensures SameVms(w.guests, w'.guests)
  {
    var bindings' := w'.persistent.ports;
    assert bindings' == w.persistent.ports[d.sysName := BindingFor(d, vm, f.attach.port, view.generation)];
    forall k, p | k in w'.guests && w'.guests[k].Live? && p in w'.guests[k].ports
      ensures Recorded(bindings', w'.guests[k].generation, p) {
      if k == socket && p == f.attach.port {
        assert bindings'[d.sysName].port == p;
      } else {
        var s := HolderExists(cfg, w, k, p);
        assert s != d.sysName && bindings'[s] == w.persistent.ports[s];
      }
    }
  }

  lemma FreshIsDistinct(w: World, w': World, d: UsbDevice, b: Binding)
    requires DistinctCurrent(w.guests, w.persistent.ports) && NoTwin(w.guests, w.persistent.ports, d)
    requires w'.persistent.ports == w.persistent.ports[d.sysName := b] && SameIdent(b, d)
        && SameVms(w.guests, w'.guests)
    ensures DistinctCurrent(w'.guests, w'.persistent.ports)
  {
    var bindings' := w'.persistent.ports;
    forall s | s in bindings' ensures Current(w'.guests, bindings'[s]) == Current(w.guests, bindings'[s]) {
      SameVmsKeepCurrent(w.guests, w'.guests, bindings'[s]);
    }
  }

  lemma ConnectIsExclusive(cfg: Config, w: World, d: UsbDevice, node: string, vm: string, socket: string,
                           preflight: Option<Guest>, changed: bool, names: seq<string>, f: AttachFaults)
    requires Owns(cfg, w) && NoTwin(w.guests, w.persistent.ports, d) && AtHome(w, d, vm)
    requires HonestAttach(d, f) && AttachSaves(f) && Settles(w, d, f)
    requires vm in cfg.sockets && cfg.sockets[vm] == socket
    requires preflight.Some? ==> ListedAs(w, d, socket, preflight.value)
    ensures Owns(cfg, Connect(cfg, w, d, node, vm, socket, preflight, changed, names, f).world)
  {
    if !(preflight.None? && Listing(GuestAt(w, socket), f.listFails).None?) {
      var view := if preflight.Some? then preflight.value else GuestAt(w, socket);
      var known := Get(w.persistent.ports, d.sysName);
      if Reusable(known, d, vm, view) {
        RecordShape(cfg, w, d, node, known.value, changed, f);
        assert w.persistent.ports[d.sysName := known.value] == w.persistent.ports;
        OwnsDepends(cfg, w, Record(cfg, w, d, node, known.value, changed, f).world);
      } else {
        AttachFreshIsExclusive(cfg, w, d, node, vm, socket, view, names, f);
      }
    }
  }

  lemma ClaimAndConnectIsExclusive(cfg: Config, w: World, d: UsbDevice, node: string, vm: string, socket: string,
                                   preflight: Option<Guest>, changed: bool, f: AttachFaults)
    requires Owns(cfg, w) && NoTwin(w.guests, w.persistent.ports, d) && AtHome(w, d, vm)
    requires HonestAttach(d, f) && AttachSaves(f) && Settles(w, d, f)
    requires vm in cfg.sockets && cfg.sockets[vm] == socket
    requires preflight.Some? ==> ListedAs(w, d, socket, preflight.value)
    ensures Owns(cfg, ClaimAndConnect(cfg, w, d, node, vm, socket, preflight, changed, f).world)
  {
    var (w1, stop) := Prepare(cfg, w, d, f);
    PrepareFrame(cfg, w, d, f);
    OwnsDepends(cfg, w, w1);
    if stop.None? {
      ConnectIsExclusive(cfg, w1, d, node, vm, socket, preflight, changed, f.interfaces.value, f);
    }
  }

  lemma UnderGuardIsExclusive(cfg: Config, w: World, d: UsbDevice, node: string, vm: string, socket: string,
                              preflight: Option<Guest>, changed: bool, f: AttachFaults)
    requires Owns(cfg, w) && NoTwin(w.guests, w.persistent.ports, d) && AtHome(w, d, vm)
    requires HonestAttach(d, f) && AttachSaves(f) && Settles(w, d, f)
    requires vm in cfg.sockets && cfg.sockets[vm] == socket
    requires preflight.Some? ==> ListedAs(w, d, socket, preflight.value)
    ensures Owns(cfg, UnderGuard(cfg, w, d, node, vm, socket, preflight, changed, f).0)
  {
    var w1 := if Armed(cfg, w, d) then WithAuthorized(w, d.sysName, true, false) else w;
    OwnsDepends(cfg, w, w1);
    DropKeepsOwns(cfg, w, d, true, f);
    if !(Armed(cfg, w, d) && (d.sysName !in w.host.authorized || f.authorizeFails)) {
      ClaimAndConnectIsExclusive(cfg, w1, d, node, vm, socket, preflight, changed, f);
      var g := ClaimAndConnect(cfg, w1, d, node, vm, socket, preflight, changed, f);
      DropKeepsOwns(cfg, g.world, d, Armed(cfg, w, d) && !g.committed, f);
    }
  }

  lemma DropKeepsOwns(cfg: Config, w: World, d: UsbDevice, armed: bool, f: AttachFaults)
    requires Owns(cfg, w)
    ensures Owns(cfg, Drop(w, d, armed, f))
  {
    OwnsDepends(cfg, w, Drop(w, d, armed, f));
  }

  /** An attach that can take the device from where it is, and finds nothing
      else on record with its numbers, keeps ownership on every exit. */
  lemma AttachToIsExclusive(cfg: Config, w: World, d: UsbDevice, vm: string, f: AttachFaults)
    requires Owns(cfg, w) && vm in cfg.sockets
    requires NoTwin(w.guests, w.persistent.ports, d) && CanMove(cfg, w, d, vm)
    requires HonestAttach(d, f) && AttachSaves(f) && Settles(w, d, f)
    ensures Owns(cfg, AttachTo(cfg, w, d, vm, f).0)
  {
    var guest := GuestAt(w, cfg.sockets[vm]);
    if d.node.Some? && !(Preflighted(cfg, d) && Listing(guest, f.preflightFails).None?) {
      var node := d.node.value;
      var preflight := if Preflighted(cfg, d) then Some(guest) else None;
      if MustMove(w, d, vm) {
        DetachIsExclusive(cfg, w, d, false, f.move);
        MovedIsExclusive(cfg, w, d, node, vm, cfg.sockets[vm], preflight, f);
      } else {
        UnderGuardIsExclusive(cfg, w, d, node, vm, cfg.sockets[vm], preflight, Get(w.usbVms, node) != Some(vm), f);
      }
    }
  }

  lemma MovedIsExclusive(cfg: Config, w: World, d: UsbDevice, node: string, vm: string, socket: string,
                         preflight: Option<Guest>, f: AttachFaults)
    requires NoTwin(w.guests, w.persistent.ports, d) && d.node == Some(node)
    requires HonestAttach(d, f) && AttachSaves(f) && Settles(w, d, f)
    requires vm in cfg.sockets && cfg.sockets[vm] == socket
        && (preflight.Some? ==> preflight.value == GuestAt(w, socket) && preflight.value.Live?)
    requires Owns(cfg, DetachOne(cfg, w, d, false, f.move).0)
    ensures var (w1, moved) := DetachOne(cfg, w, d, false, f.move);
      moved.Done? ==> Owns(cfg, UnderGuard(cfg, w1, d, node, vm, socket, preflight, true, f).0)
  {
    var (w1, moved) := DetachOne(cfg, w, d, false, f.move);
    DetachFrame(cfg, w, d, false, f.move);
    if moved.Done? {
      DetachDoneShape(cfg, w, d, false, f.move);
      FewerRecordsNoTwin(w.guests, w1.guests, w.persistent.ports, d);
      UnderGuardIsExclusive(cfg, w1, d, node, vm, socket, preflight, true, f);
    }
  }

  lemma FewerRecordsNoTwin(guests: Guests, guests': Guests, bindings: Bindings, d: UsbDevice)
    requires NoTwin(guests, bindings, d) && SameVms(guests, guests')
    ensures NoTwin(guests', Without(bindings, d.sysName), d)
  {
    forall s | s in bindings ensures Current(guests', bindings[s]) == Current(guests, bindings[s]) {
      SameVmsKeepCurrent(guests, guests', bindings[s]);
    }
  }

  /** What a caller can check before an attach. */
  ghost predicate SafeToAttach(cfg: Config, w: World, d: UsbDevice, rule: UsbRule, requested: Option<string>) {
    forall vm :: ChooseVm(w.persistent.selected, PersistentId(d), rule, requested) == Some(vm) ==>
                   NoTwin(w.guests, w.persistent.ports, d) && CanMove(cfg, w, d, vm)
  }

  lemma AttachIsExclusive(cfg: Config, w: World, d: UsbDevice, rule: UsbRule, requested: Option<string>,
                          f: AttachFaults)
    requires Owns(cfg, w) && SafeToAttach(cfg, w, d, rule, requested)
    requires HonestAttach(d, f) && AttachSaves(f) && Settles(w, d, f)
    ensures Owns(cfg, AttachOne(cfg, w, d, rule, requested, f).0)
  {
    var chosen := ChooseVm(w.persistent.selected, PersistentId(d), rule, requested);
    OwnsDepends(cfg, w, AskForVm(w, d));
    if chosen.Some? && chosen.value in cfg.sockets {
      AttachToIsExclusive(cfg, w, d, chosen.value, f);
    }
  }
}
