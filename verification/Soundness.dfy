/**
 Recorded bindings tell the truth: over every run of operations, VM
 lifecycles and daemon restarts, a binding whose socket generation is current
 names a live port showing the recorded device, and no port is recorded twice.
 */
module Soundness {
  import opened Prelude
  import opened Crosvm
  import opened World
  import opened UsbSpec
  import opened Frames

  type Guests = map<string, Guest>
  type Bindings = map<string, Binding>

  /** The generation on record is the one the socket has now. */
  ghost predicate SameGeneration(guest: Guest, b: Binding) {
    !guest.NoSocket? && guest.generation == b.generation
  }

  ghost predicate Held(guest: Guest, b: Binding) {
    guest.Live? ==> b.port in guest.ports && Shows(guest.ports[b.port], b.vid, b.pid)
  }

  ghost predicate Truthful(cfg: Config, guests: Guests, b: Binding) {
    forall k :: k in guests && SameGeneration(guests[k], b) ==>
                  b.vm in cfg.sockets && cfg.sockets[b.vm] == k && Held(guests[k], b)
  }

  /** Two bindings never claim one port of one running VM. */
  ghost predicate Apart(guests: Guests, b: Binding, b': Binding) {
    forall k :: k in guests && SameGeneration(guests[k], b) && SameGeneration(guests[k], b') ==> b.port != b'.port
  }

  ghost predicate Sound(cfg: Config, guests: Guests, bindings: Bindings) {
    && (forall s :: s in bindings ==> Truthful(cfg, guests, bindings[s]))
    && (forall s, s' :: s in bindings && s' in bindings && s != s' ==> Apart(guests, bindings[s], bindings[s']))
  }

  ghost predicate DistinctGenerations(guests: Guests) {
    forall k, k' :: k in guests && k' in guests && k != k' && !guests[k].NoSocket? && !guests[k'].NoSocket? ==>
                      guests[k].generation != guests[k'].generation
  }

  ghost predicate Inv(cfg: Config, w: World) {
    && Sound(cfg, w.guests, w.persistent.ports)
    && DistinctGenerations(w.guests)
    && (cfg.persistency ==> w.disk == w.persistent)
  }

  /** What the invariant says of one binding, in the manager's own terms. */
  ghost predicate CurrentAt(cfg: Config, w: World, b: Binding) {
    && b.vm in cfg.sockets && GuestAt(w, cfg.sockets[b.vm]).Live?
    && GuestAt(w, cfg.sockets[b.vm]).generation == b.generation
  }

  lemma InvMeans(cfg: Config, w: World)
    requires Inv(cfg, w)
    ensures forall s :: s in w.persistent.ports && CurrentAt(cfg, w, w.persistent.ports[s]) ==>
                var b := w.persistent.ports[s];
                var live := GuestAt(w, cfg.sockets[b.vm]).ports;
                b.port in live && Shows(live[b.port], b.vid, b.pid)
    ensures forall s, s' | s in w.persistent.ports && s' in w.persistent.ports && s != s'
                && CurrentAt(cfg, w, w.persistent.ports[s]) && CurrentAt(cfg, w, w.persistent.ports[s'])
                && cfg.sockets[w.persistent.ports[s].vm] == cfg.sockets[w.persistent.ports[s'].vm] ::
                w.persistent.ports[s].port != w.persistent.ports[s'].port
  {
    forall s | s in w.persistent.ports && CurrentAt(cfg, w, w.persistent.ports[s])
      ensures var b := w.persistent.ports[s];
              && b.port in GuestAt(w, cfg.sockets[b.vm]).ports
              && Shows(GuestAt(w, cfg.sockets[b.vm]).ports[b.port], b.vid, b.pid)
    {
      var b := w.persistent.ports[s];
      assert Truthful(cfg, w.guests, b);
      assert SameGeneration(w.guests[cfg.sockets[b.vm]], b);
    }
    forall s, s' | s in w.persistent.ports && s' in w.persistent.ports && s != s'
                && CurrentAt(cfg, w, w.persistent.ports[s]) && CurrentAt(cfg, w, w.persistent.ports[s'])
                && cfg.sockets[w.persistent.ports[s].vm] == cfg.sockets[w.persistent.ports[s'].vm]
      ensures w.persistent.ports[s].port != w.persistent.ports[s'].port
    {
      var b, b' := w.persistent.ports[s], w.persistent.ports[s'];
      assert Apart(w.guests, b, b');
      assert SameGeneration(w.guests[cfg.sockets[b.vm]], b);
      assert SameGeneration(w.guests[cfg.sockets[b.vm]], b');
    }
  }

  // ----- the three changes operations make to ports and bindings -----

  /** No binding other than the one of `name` claims this port. */
  ghost predicate Unclaimed(guests: Guests, bindings: Bindings, name: string, socket: string, port: nat)
    requires socket in guests
  {
    forall s :: s in bindings && s != name && SameGeneration(guests[socket], bindings[s]) ==> bindings[s].port != port
  }

  lemma DropBinding(cfg: Config, guests: Guests, bindings: Bindings, name: string)
    requires Sound(cfg, guests, bindings)
    ensures Sound(cfg, guests, Without(bindings, name))
  {
  }

  lemma RemovePort(cfg: Config, guests: Guests, bindings: Bindings, name: string, socket: string, port: nat)
    requires Sound(cfg, guests, bindings)
    requires socket in guests && guests[socket].Live?
    requires Unclaimed(guests, bindings, name, socket, port)
    ensures var after := guests[socket := guests[socket].(ports := Without(guests[socket].ports, port))];
      Sound(cfg, after, Without(bindings, name))
  {
    var after := guests[socket := guests[socket].(ports := Without(guests[socket].ports, port))];
    var left := Without(bindings, name);
    forall s | s in left ensures Truthful(cfg, after, left[s]) {
      forall k | k in after && SameGeneration(after[k], left[s])
        ensures left[s].vm in cfg.sockets && cfg.sockets[left[s].vm] == k && Held(after[k], left[s])
      {
        assert SameGeneration(guests[k], left[s]);
      }
    }
    forall s, s' | s in left && s' in left && s != s' ensures Apart(after, left[s], left[s']) {
      assert Apart(guests, bindings[s], bindings[s']);
      forall k | k in after && SameGeneration(after[k], left[s]) && SameGeneration(after[k], left[s'])
        ensures left[s].port != left[s'].port
      {
        assert SameGeneration(guests[k], left[s]) && SameGeneration(guests[k], left[s']);
      }
    }
  }

  lemma AddPort(cfg: Config, guests: Guests, bindings: Bindings, socket: string, port: nat, shown: Ident)
    requires Sound(cfg, guests, bindings)
    requires socket in guests && guests[socket].Live? && port !in guests[socket].ports
    ensures var after := guests[socket := guests[socket].(ports := guests[socket].ports[port := shown])];
      Sound(cfg, after, bindings) && (forall name :: Unclaimed(after, bindings, name, socket, port))
  {
    var after := guests[socket := guests[socket].(ports := guests[socket].ports[port := shown])];
    forall s | s in bindings ensures Truthful(cfg, after, bindings[s]) {
      assert Truthful(cfg, guests, bindings[s]);
      forall k | k in after && SameGeneration(after[k], bindings[s])
        ensures bindings[s].vm in cfg.sockets && cfg.sockets[bindings[s].vm] == k && Held(after[k], bindings[s])
      {
        assert SameGeneration(guests[k], bindings[s]);
      }
    }
    forall s | s in bindings && SameGeneration(after[socket], bindings[s]) ensures bindings[s].port != port {
      assert SameGeneration(guests[socket], bindings[s]);
      assert Truthful(cfg, guests, bindings[s]);
    }
    forall s, s' | s in bindings && s' in bindings && s != s' ensures Apart(after, bindings[s], bindings[s']) {
      assert Apart(guests, bindings[s], bindings[s']);
      forall k | k in after && SameGeneration(after[k], bindings[s]) && SameGeneration(after[k], bindings[s'])
        ensures bindings[s].port != bindings[s'].port
      {
        assert SameGeneration(guests[k], bindings[s]) && SameGeneration(guests[k], bindings[s']);
      }
    }
  }

  lemma Rebind(cfg: Config, guests: Guests, bindings: Bindings, name: string, socket: string, b: Binding)
    requires Sound(cfg, guests, Without(bindings, name)) && DistinctGenerations(guests)
    requires b.vm in cfg.sockets && cfg.sockets[b.vm] == socket
    requires socket in guests && guests[socket].Live? && guests[socket].generation == b.generation
    requires Held(guests[socket], b)
    requires Unclaimed(guests, bindings, name, socket, b.port)
    ensures Sound(cfg, guests, bindings[name := b])
  {
    var left := Without(bindings, name);
    var after := bindings[name := b];
    forall s | s in after ensures Truthful(cfg, guests, after[s]) {
      if s != name {
        assert s in left && left[s] == after[s];
      }
    }
    forall s, s' | s in after && s' in after && s != s' ensures Apart(guests, after[s], after[s']) {
      if s != name && s' != name {
        assert Apart(guests, left[s], left[s']);
      }
    }
  }

  // ----- operations -----

  /** The VM the record was made for still runs. */
  ghost predicate Current(guests: Guests, b: Binding) {
    exists k :: k in guests && guests[k].Live? && guests[k].generation == b.generation
  }

  ghost predicate SameIdent(b: Binding, d: UsbDevice) {
    b.vid == d.vid && b.pid == d.pid
  }

  /** No other name has a current record with this device's vendor and product. */
  ghost predicate NoTwin(guests: Guests, bindings: Bindings, d: UsbDevice) {
    forall s :: s in bindings && s != d.sysName && SameIdent(bindings[s], d) ==> !Current(guests, bindings[s])
  }

  /** A search for the device at a VM, if one is made, finds no other's port. */
  ghost predicate Identifiable(w: World, d: UsbDevice) {
    d.node.Some? && Holder(w, d, d.node.value).Some? ==> NoTwin(w.guests, w.persistent.ports, d)
  }

  lemma SameVmsKeepCurrent(guests: Guests, guests': Guests, b: Binding)
    requires SameVms(guests, guests')
    ensures Current(guests', b) == Current(guests, b)
  {
    if k :| k in guests && guests[k].Live? && guests[k].generation == b.generation {
      assert guests'[k].Live? && guests'[k].generation == b.generation;
    }
    if k :| k in guests' && guests'[k].Live? && guests'[k].generation == b.generation {
      assert guests[k].Live? && guests[k].generation == b.generation;
    }
  }

  /** Ports showing this device are claimed by no binding but its own. */
  lemma ShownIsUnclaimed(cfg: Config, guests: Guests, bindings: Bindings, d: UsbDevice, socket: string, port: nat)
    requires Sound(cfg, guests, bindings) && NoTwin(guests, bindings, d)
    requires socket in guests && guests[socket].Live? && port in guests[socket].ports
    requires Shows(guests[socket].ports[port], d.vid, d.pid)
    ensures Unclaimed(guests, bindings, d.sysName, socket, port)
  {
    forall s | s in bindings && s != d.sysName && SameGeneration(guests[socket], bindings[s])
      ensures bindings[s].port != port {
      assert Truthful(cfg, guests, bindings[s]);
      assert Current(guests, bindings[s]);
    }
  }

  /** A port recorded under a name is claimed by no other binding. */
  lemma RecordedIsUnclaimed(cfg: Config, guests: Guests, bindings: Bindings, name: string, socket: string)
    requires Sound(cfg, guests, bindings) && name in bindings
    requires socket in guests && SameGeneration(guests[socket], bindings[name])
    ensures Unclaimed(guests, bindings, name, socket, bindings[name].port)
  {
    forall s | s in bindings && s != name && SameGeneration(guests[socket], bindings[s])
      ensures bindings[s].port != bindings[name].port {
      assert Apart(guests, bindings[s], bindings[name]);
    }
  }

  /** Whatever the manager takes back from a VM, every other binding stays true. */
  lemma ReleaseIsSound(cfg: Config, w: World, socket: string, d: UsbDevice, f: DetachFaults)
    requires Sound(cfg, w.guests, w.persistent.ports) && DistinctGenerations(w.guests)
    requires NoTwin(w.guests, w.persistent.ports, d)
    ensures var (w1, error) := ReleaseFromVm(w, socket, Get(w.persistent.ports, d.sysName), d, f);
      && w1 == w.(guests := w1.guests, log := w1.log)
      && DistinctGenerations(w1.guests)
      && (error.Some? ==> w1.guests == w.guests)
      && Sound(cfg, w1.guests, Without(w.persistent.ports, d.sysName))
  {
    var bindings := w.persistent.ports;
    DropBinding(cfg, w.guests, bindings, d.sysName);
    ReleaseShape(w, socket, Get(bindings, d.sysName), d, f);
    if ReleaseFromVm(w, socket, Get(bindings, d.sysName), d, f).0.guests != w.guests {
      var guest := GuestAt(w, socket);
      var port := PortToRelease(guest.ports, guest.generation, Get(bindings, d.sysName), d).value.value;
      ReleasedIsUnclaimed(cfg, w.guests, bindings, d, socket, port);
      RemovePort(cfg, w.guests, bindings, d.sysName, socket, port);
    }
  }

  /** A release changes nothing, or takes back the port it chose. */
  lemma ReleaseShape(w: World, socket: string, binding: Option<Binding>, d: UsbDevice, f: DetachFaults)
    ensures var (w1, error) := ReleaseFromVm(w, socket, binding, d, f);
      && w1 == w.(guests := w1.guests, log := w1.log)
      && (w1.guests != w.guests ==>
            && error.None? && GuestAt(w, socket).Live?
            && var guest := GuestAt(w, socket);
               var release := PortToRelease(guest.ports, guest.generation, binding, d);
               && release.Ok? && release.value.Some?
               && w1.guests == WithGuestPorts(w.guests, socket, Without(guest.ports, release.value.value)))
  {
  }

  /** A detach never takes away a port that another binding records. */
  lemma ReleasedIsUnclaimed(cfg: Config, guests: Guests, bindings: Bindings, d: UsbDevice, socket: string, port: nat)
    requires Sound(cfg, guests, bindings) && NoTwin(guests, bindings, d)
    requires socket in guests && guests[socket].Live?
    requires PortToRelease(guests[socket].ports, guests[socket].generation, Get(bindings, d.sysName), d) ==
        Ok(Some(port))
    ensures Unclaimed(guests, bindings, d.sysName, socket, port)
  {
    var binding := Get(bindings, d.sysName);
    if binding.Some? && binding.value.generation == guests[socket].generation {
      RecordedIsUnclaimed(cfg, guests, bindings, d.sysName, socket);
    } else {
      ShownIsUnclaimed(cfg, guests, bindings, d, socket, port);
    }
  }

  ghost predicate DetachSaves(f: DetachFaults) {
    !f.saveMarkFails && !f.saveFails
  }

  lemma DetachIsSound(cfg: Config, w: World, d: UsbDevice, permanent: bool, f: DetachFaults)
    requires Inv(cfg, w) && Identifiable(w, d) && DetachSaves(f)
    ensures Inv(cfg, DetachOne(cfg, w, d, permanent, f).0)
    ensures var (w1, outcome) := DetachOne(cfg, w, d, permanent, f);
      w1.persistent.ports == if outcome.Done? then Without(w.persistent.ports, d.sysName) else w.persistent.ports
  {
    if d.node.Some? {
      var holder := Holder(w, d, d.node.value);
      if holder.None? {
        DropBinding(cfg, w.guests, w.persistent.ports, d.sysName);
        FinishIsSound(cfg, w, d, d.node.value, permanent, f);
      } else if holder.value in cfg.sockets {
        ReleaseIsSound(cfg, w, cfg.sockets[holder.value], d, f);
        var w1 := ReleaseFromVm(w, cfg.sockets[holder.value], Get(w.persistent.ports, d.sysName), d, f).0;
        FinishIsSound(cfg, Log(w1, UsbDetached(d.node.value, holder.value)), d, d.node.value, permanent, f);
      }
    }
  }

  lemma FinishIsSound(cfg: Config, w: World, d: UsbDevice, node: string, permanent: bool, f: DetachFaults)
    requires Sound(cfg, w.guests, Without(w.persistent.ports, d.sysName)) && DistinctGenerations(w.guests)
        && DetachSaves(f)
    ensures var (w', outcome) := FinishDetach(cfg, w, d, node, permanent, f);
      Inv(cfg, w') && outcome.Done? && w'.persistent.ports == Without(w.persistent.ports, d.sysName)
  {
    FinishDetachShape(cfg, w, d, node, permanent, f);
    FinishSaves(cfg, w, d, node, permanent, f);
  }

  lemma FinishSaves(cfg: Config, w: World, d: UsbDevice, node: string, permanent: bool, f: DetachFaults)
    requires DetachSaves(f)
    ensures var (w', outcome) := FinishDetach(cfg, w, d, node, permanent, f);
      outcome.Done? && (cfg.persistency ==> w'.disk == w'.persistent)
  {
  }

  /** The device is listed by the VM under the numbers the host reads. */
  ghost predicate HonestAttach(d: UsbDevice, f: AttachFaults) {
    !f.attach.Refused? ==> Shows(f.shown, d.vid, d.pid)
  }

  ghost predicate AttachSaves(f: AttachFaults) {
    !f.saveSelectFails && !f.saveMarkFails && !f.saveFails && DetachSaves(f.move)
  }

  lemma RecordIsSound(cfg: Config, w: World, d: UsbDevice, node: string, binding: Binding, changed: bool,
                      f: AttachFaults)
    requires Sound(cfg, w.guests, w.persistent.ports[d.sysName := binding]) && DistinctGenerations(w.guests)
    requires AttachSaves(f)
    ensures Inv(cfg, Record(cfg, w, d, node, binding, changed, f).world)
  {
  }

  /** The listing taken before a move still describes the VM: it is the same
      socket, and nothing recorded for the device refers to its ports. */
  ghost predicate ListedAs(w: World, d: UsbDevice, socket: string, view: Guest) {
    && view.Live?
    && GuestAt(w, socket).Live?
    && view.generation == GuestAt(w, socket).generation
    && (view == GuestAt(w, socket) || d.sysName !in w.persistent.ports)
  }

  lemma AttachFreshIsSound(cfg: Config, w: World, d: UsbDevice, node: string, vm: string, socket: string, view: Guest,
                           names: seq<string>, f: AttachFaults)
    requires Inv(cfg, w) && HonestAttach(d, f) && AttachSaves(f)
    requires vm in cfg.sockets && cfg.sockets[vm] == socket
    requires ListedAs(w, d, socket, view)
    ensures Inv(cfg, AttachFresh(cfg, w, d, node, vm, socket, view, names, f).world)
  {
    FreshTakesShape(cfg, w, d, node, vm, socket, view, names, f);
    FreshShapeIsSound(cfg, w, AttachFresh(cfg, w, d, node, vm, socket, view, names, f).world, d, vm, socket, view, f);
  }

  /** What a fresh attach may do to ports and bindings: nothing, a port more,
      or the new port recorded and the stale one given back. */
  ghost predicate FreshShape(cfg: Config, w: World, w': World, d: UsbDevice, vm: string, socket: string, view: Guest,
                             f: AttachFaults)
    requires view.Live? && GuestAt(w, socket).Live?
  {
    var guest := GuestAt(w, socket);
    if f.attach.Refused? || f.attach.port in guest.ports then SameRecords(w, w') && w'.guests == w.guests
    else
      var grown := WithGuestPorts(w.guests, socket, guest.ports[f.attach.port := f.shown]);
      if f.attach.Lost? then SameRecords(w, w') && w'.guests == grown
      else
        SettledShape(cfg, w.(guests := grown), w', socket, StalePort(Get(w.persistent.ports, d.sysName), vm, view),
                     d.sysName,
                     BindingFor(d, vm, f.attach.port, view.generation), f)
  }

  ghost predicate SameRecords(w: World, w': World) {
    w'.persistent == w.persistent && w'.disk == w.disk
  }

  ghost predicate SettledShape(cfg: Config, w: World, w': World, socket: string, stale: Option<nat>, name: string,
                               binding: Binding, f: AttachFaults)
    requires GuestAt(w, socket).Live?
  {
    var moved := stale.Some? && stale.value != binding.port;
    if moved && f.staleFails then SameRecords(w, w') && w'.guests == w.guests
    else
      && w'.guests == (if moved then WithGuestPorts(w.guests, socket, Without(w.guests[socket].ports, stale.value))
                       else w.guests)
      && w'.persistent.ports == w.persistent.ports[name := binding]
      && (cfg.persistency ==> w'.disk == w'.persistent)
  }

  lemma SettleTakesShape(cfg: Config, w: World, d: UsbDevice, node: string, socket: string, stale: Option<nat>,
                         binding: Binding, f: AttachFaults)
    requires AttachSaves(f) && GuestAt(w, socket).Live?
    ensures SettledShape(cfg, w, SettleTaken(cfg, w, d, node, socket, stale, binding, f).world, socket, stale,
                         d.sysName, binding, f)
  {
    CleanedShape(w, socket, stale, binding.port, f.staleFails);
    RecordShape(cfg, CleanStale(w, socket, stale, binding.port, f.staleFails).0, d, node, binding, true, f);
  }

  lemma CleanedShape(w: World, socket: string, stale: Option<nat>, port: nat, fails: bool)
    requires GuestAt(w, socket).Live?
    ensures var (w1, error) := CleanStale(w, socket, stale, port, fails);
      var moved := stale.Some? && stale.value != port;
      && SameRecords(w, w1) && (error.Some? <==> moved && fails)
      && w1.guests ==
         if moved && !fails then WithGuestPorts(w.guests, socket, Without(w.guests[socket].ports, stale.value))
         else w.guests
  {
  }

  ghost function WithGuestPorts(guests: Guests, socket: string, ports: map<nat, Ident>): Guests
    requires socket in guests && guests[socket].Live?
  {
    guests[socket := guests[socket].(ports := ports)]
  }

  lemma FreshTakesShape(cfg: Config, w: World, d: UsbDevice, node: string, vm: string, socket: string, view: Guest,
                        names: seq<string>, f: AttachFaults)
    requires AttachSaves(f) && view.Live? && GuestAt(w, socket).Live?
    ensures FreshShape(cfg, w, AttachFresh(cfg, w, d, node, vm, socket, view, names, f).world, d, vm, socket, view, f)
  {
    var guest := GuestAt(w, socket);
    if f.attach.Taken? && f.attach.port !in guest.ports {
      var issued := Log(w, UsbAttachCommand(socket, node, BoundDrivers(w.host.drivers, names)));
      var attached := WithPorts(issued, socket, guest.ports[f.attach.port := f.shown]);
      var stale := StalePort(Get(w.persistent.ports, d.sysName), vm, view);
      var binding := BindingFor(d, vm, f.attach.port, view.generation);
      var grown := w.(guests := WithGuestPorts(w.guests, socket, guest.ports[f.attach.port := f.shown]));
      SettleTakesShapeFrom(cfg, grown, attached, d, node, socket, stale, binding, f);
    } else {
      UntakenShape(cfg, w, d, node, vm, socket, view, names, f);
    }
  }

  /** The log is no matter. */
  lemma SettleTakesShapeFrom(cfg: Config, w: World, issued: World, d: UsbDevice, node: string, socket: string,
                             stale: Option<nat>, binding: Binding, f: AttachFaults)
    requires AttachSaves(f) && GuestAt(w, socket).Live? && issued.guests == w.guests && SameRecords(w, issued)
    ensures SettledShape(cfg, w, SettleTaken(cfg, issued, d, node, socket, stale, binding, f).world, socket, stale,
                         d.sysName, binding, f)
  {
    SettleTakesShape(cfg, issued, d, node, socket, stale, binding, f);
    LogIsNoMatter(cfg, issued, w, SettleTaken(cfg, issued, d, node, socket, stale, binding, f).world, socket, stale,
                  d.sysName, binding, f);
  }

  lemma LogIsNoMatter(cfg: Config, w: World, w0: World, w': World, socket: string, stale: Option<nat>, name: string,
                      binding: Binding, f: AttachFaults)
    requires GuestAt(w, socket).Live? && SettledShape(cfg, w, w', socket, stale, name, binding, f)
    requires w0.guests == w.guests && SameRecords(w, w0)
    ensures SettledShape(cfg, w0, w', socket, stale, name, binding, f)
  {
  }

  lemma FreshShapeIsSound(cfg: Config, w: World, w': World, d: UsbDevice, vm: string, socket: string, view: Guest,
                          f: AttachFaults)
    requires Inv(cfg, w) && HonestAttach(d, f)
    requires vm in cfg.sockets && cfg.sockets[vm] == socket && ListedAs(w, d, socket, view)
    requires FreshShape(cfg, w, w', d, vm, socket, view, f)
    ensures Inv(cfg, w')
  {
    var guests, bindings := w.guests, w.persistent.ports;
    var guest := GuestAt(w, socket);
    if !f.attach.Refused? && f.attach.port !in guest.ports {
      var port := f.attach.port;
      AddPort(cfg, guests, bindings, socket, port, f.shown);
      var grown := WithGuestPorts(guests, socket, guest.ports[port := f.shown]);
      var stale := StalePort(Get(bindings, d.sysName), vm, view);
      var binding := BindingFor(d, vm, port, view.generation);
      if f.attach.Lost? || (stale.Some? && stale.value != port && f.staleFails) {
        assert w'.guests == grown;
      } else if stale.Some? && stale.value != port {
        RecordedIsUnclaimed(cfg, grown, bindings, d.sysName, socket);
        RemovePort(cfg, grown, bindings, d.sysName, socket, stale.value);
        RebindFresh(cfg, grown, w'.guests, bindings, d, socket, binding);
      } else {
        DropBinding(cfg, grown, bindings, d.sysName);
        Rebind(cfg, grown, bindings, d.sysName, socket, binding);
      }
    }
  }

  lemma RebindFresh(cfg: Config, grown: Guests, cut: Guests, bindings: Bindings, d: UsbDevice, socket: string,
                    b: Binding)
    requires socket in grown && grown[socket].Live? && DistinctGenerations(grown)
    requires exists stale: nat ::
               stale != b.port && cut == WithGuestPorts(grown, socket, Without(grown[socket].ports, stale))
    requires Sound(cfg, cut, Without(bindings, d.sysName))
    requires b.vm in cfg.sockets && cfg.sockets[b.vm] == socket && grown[socket].generation == b.generation
    requires Held(grown[socket], b) && Unclaimed(grown, bindings, d.sysName, socket, b.port)
    ensures Sound(cfg, cut, bindings[d.sysName := b]) && DistinctGenerations(cut)
  {
    Rebind(cfg, cut, bindings, d.sysName, socket, b);
  }

  lemma ConnectIsSound(cfg: Config, w: World, d: UsbDevice, node: string, vm: string, socket: string,
                       preflight: Option<Guest>, changed: bool, names: seq<string>, f: AttachFaults)
    requires Inv(cfg, w) && HonestAttach(d, f) && AttachSaves(f)
    requires vm in cfg.sockets && cfg.sockets[vm] == socket
    requires preflight.Some? ==> ListedAs(w, d, socket, preflight.value)
    ensures Inv(cfg, Connect(cfg, w, d, node, vm, socket, preflight, changed, names, f).world)
  {
    if !(preflight.None? && Listing(GuestAt(w, socket), f.listFails).None?) {
      var view := if preflight.Some? then preflight.value else GuestAt(w, socket);
      var known := Get(w.persistent.ports, d.sysName);
      if Reusable(known, d, vm, view) {
        assert w.persistent.ports[d.sysName := known.value] == w.persistent.ports;
        RecordIsSound(cfg, w, d, node, known.value, changed, f);
      } else {
        AttachFreshIsSound(cfg, w, d, node, vm, socket, view, names, f);
      }
    }
  }

  lemma ClaimAndConnectIsSound(cfg: Config, w: World, d: UsbDevice, node: string, vm: string, socket: string,
                               preflight: Option<Guest>, changed: bool, f: AttachFaults)
    requires Inv(cfg, w) && HonestAttach(d, f) && AttachSaves(f)
    requires vm in cfg.sockets && cfg.sockets[vm] == socket
    requires preflight.Some? ==> ListedAs(w, d, socket, preflight.value)
    ensures Inv(cfg, ClaimAndConnect(cfg, w, d, node, vm, socket, preflight, changed, f).world)
  {
    var (w1, stop) := Prepare(cfg, w, d, f);
    PrepareFrame(cfg, w, d, f);
    if stop.None? {
      ConnectIsSound(cfg, w1, d, node, vm, socket, preflight, changed, f.interfaces.value, f);
    }
  }

  lemma UnderGuardIsSound(cfg: Config, w: World, d: UsbDevice, node: string, vm: string, socket: string,
                          preflight: Option<Guest>, changed: bool, f: AttachFaults)
    requires Inv(cfg, w) && HonestAttach(d, f) && AttachSaves(f)
    requires vm in cfg.sockets && cfg.sockets[vm] == socket
    requires preflight.Some? ==> ListedAs(w, d, socket, preflight.value)
    ensures Inv(cfg, UnderGuard(cfg, w, d, node, vm, socket, preflight, changed, f).0)
  {
    var w1 := if Armed(cfg, w, d) then WithAuthorized(w, d.sysName, true, false) else w;
    if !(Armed(cfg, w, d) && (d.sysName !in w.host.authorized || f.authorizeFails)) {
      ClaimAndConnectIsSound(cfg, w1, d, node, vm, socket, preflight, changed, f);
      var g := ClaimAndConnect(cfg, w1, d, node, vm, socket, preflight, changed, f);
      DropIsSound(cfg, g.world, d, Armed(cfg, w, d) && !g.committed, f);
    } else {
      DropIsSound(cfg, w, d, true, f);
    }
  }

  lemma DropIsSound(cfg: Config, w: World, d: UsbDevice, armed: bool, f: AttachFaults)
    requires Inv(cfg, w)
    ensures Inv(cfg, Drop(w, d, armed, f))
  {
  }

  lemma AttachToIsSound(cfg: Config, w: World, d: UsbDevice, vm: string, f: AttachFaults)
    requires Inv(cfg, w) && Identifiable(w, d) && HonestAttach(d, f) && AttachSaves(f)
    requires vm in cfg.sockets
    ensures Inv(cfg, AttachTo(cfg, w, d, vm, f).0)
  {
    var guest := GuestAt(w, cfg.sockets[vm]);
    if d.node.Some? && !(Preflighted(cfg, d) && Listing(guest, f.preflightFails).None?) {
      var node := d.node.value;
      var preflight := if Preflighted(cfg, d) then Some(guest) else None;
      var current := Get(w.usbVms, node);
      if current.Some? && current.value != vm {
        var (w1, moved) := DetachOne(cfg, w, d, false, f.move);
        DetachIsSound(cfg, w, d, false, f.move);
        DetachFrame(cfg, w, d, false, f.move);
        if moved.Done? {
          UnderGuardIsSound(cfg, w1, d, node, vm, cfg.sockets[vm], preflight, true, f);
        }
      } else {
        UnderGuardIsSound(cfg, w, d, node, vm, cfg.sockets[vm], preflight, current != Some(vm), f);
      }
    }
  }

  /** Attaching keeps every record true, whatever fails short of a save. */
  lemma AttachIsSound(cfg: Config, w: World, d: UsbDevice, rule: UsbRule, requested: Option<string>, f: AttachFaults)
    requires Inv(cfg, w) && Identifiable(w, d) && HonestAttach(d, f) && AttachSaves(f)
    ensures Inv(cfg, AttachOne(cfg, w, d, rule, requested, f).0)
  {
    var chosen := ChooseVm(w.persistent.selected, PersistentId(d), rule, requested);
    if chosen.Some? && chosen.value in cfg.sockets {
      AttachToIsSound(cfg, w, d, chosen.value, f);
    }
  }
}
