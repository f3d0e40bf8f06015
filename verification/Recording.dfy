/**
 What an attach has written when it ends, whichever of its saves failed: the
 holder and the selection first, then the mark, and the port last.
 */
module Recording {
  import opened Prelude
  import opened World
  import opened UsbSpec
  import opened Frames
  import opened Attaching
  import Marks

  /** The records after an attach that got to them, and what of them is on disk. */
  ghost predicate RecordsMade(cfg: Config, w: World, w': World, d: UsbDevice, node: string, vm: string,
                              f: AttachFaults)
  {
    var first := cfg.persistency && f.saveSelectFails;
    var second := !first && cfg.persistency && f.saveMarkFails;
    var third := !first && !second && cfg.persistency && f.saveFails;
    && w'.usbVms == w.usbVms[node := vm]
    && w'.persistent.selected == w.persistent.selected[PersistentId(d) := vm]
    && (if first then w'.persistent.disconnected == w.persistent.disconnected else Lifted(w, w', d))
    && (if first || second then w'.persistent.ports == w.persistent.ports else PortNoted(w, w', d, vm))
    && w'.pending == (if first || second || third then w.pending else w.pending - {PersistentId(d)})
    && w'.disk ==
       (if !cfg.persistency || first then w.disk
        else if second then w.persistent.(selected := w'.persistent.selected)
        else if third then w'.persistent.(ports := w.persistent.ports)
        else w'.persistent)
  }

  /** The device is not marked, and no other mark has changed. */
  ghost predicate Lifted(w: World, w': World, d: UsbDevice) {
    var id := PersistentId(d);
    id !in w'.persistent.disconnected
    && OtherMarks(w'.persistent.disconnected, id) == OtherMarks(w.persistent.disconnected, id)
  }

  ghost predicate PortNoted(w: World, w': World, d: UsbDevice, vm: string) {
    && d.sysName in w'.persistent.ports && w'.persistent.ports[d.sysName].vm == vm
    && Elsewhere(w.persistent.ports, w'.persistent.ports, d.sysName)
  }

  /** An attach that ends well, or because a save failed, has made its records. */
  ghost predicate Makes(cfg: Config, w: World, s: (World, AttachResult), d: UsbDevice, node: string, vm: string,
                        f: AttachFaults)
  {
    s.1 == Attached || s.1 == Rejected(SaveFailed) ==> RecordsMade(cfg, w, s.0, d, node, vm, f)
  }

  lemma MakesAround(cfg: Config, w: World, w1: World, w2: World, w': World, result: AttachResult, d: UsbDevice,
                    node: string, vm: string, f: AttachFaults)
    requires SameMemory(w, w1) && Makes(cfg, w1, (w2, result), d, node, vm, f) && SameMemory(w2, w')
    ensures Makes(cfg, w, (w', result), d, node, vm, f)
  {
  }

  lemma RecordMakes(cfg: Config, w: World, d: UsbDevice, node: string, binding: Binding, changed: bool, f: AttachFaults)
    ensures var g := Record(cfg, w, d, node, binding, changed, f);
      RecordsMade(cfg, w, g.world, d, node, binding.vm, f)
  {
    var w1 := Saved(cfg, NoteVm(w, d, node, binding.vm), false);
    var w2 := LiftMark(w1, d);
    MarkIsLifted(w1, d);
    if !(cfg.persistency && (f.saveSelectFails || f.saveMarkFails)) {
      PortIsRecorded(cfg, Saved(cfg, w2, false), d, binding, changed, f);
    }
  }

  lemma MarkIsLifted(w: World, d: UsbDevice)
    ensures Lifted(w, LiftMark(w, d), d)
  {
    MarksFrame(w.persistent.disconnected, PersistentId(d), false);
    Marks.SetDisconnectedIsUpdate(w.persistent.disconnected, PersistentId(d), false);
  }

  lemma PortIsRecorded(cfg: Config, w: World, d: UsbDevice, binding: Binding, changed: bool, f: AttachFaults)
    ensures var w', fails := RecordPort(cfg, w, d, binding, changed, f).world, cfg.persistency && f.saveFails;
      && w'.persistent == w.persistent.(ports := w.persistent.ports[d.sysName := binding])
      && PortNoted(w, w', d, binding.vm)
      && w'.usbVms == w.usbVms
      && w'.pending == (if fails then w.pending else w.pending - {PersistentId(d)})
      && w'.disk == if cfg.persistency && !fails then w'.persistent else w.disk
  {
    UpdateElsewhere(w.persistent.ports, d.sysName, binding);
  }

  lemma SettleMakes(cfg: Config, w: World, d: UsbDevice, node: string, socket: string, stale: Option<nat>,
                    binding: Binding, f: AttachFaults)
    requires GuestAt(w, socket).Live?
    ensures var g := SettleTaken(cfg, w, d, node, socket, stale, binding, f);
      Makes(cfg, w, (g.world, g.result), d, node, binding.vm, f)
  {
    var cleaned := CleanStale(w, socket, stale, binding.port, f.staleFails).0;
    CleanStaleEffects(w, socket, stale, binding.port, f.staleFails);
    var g := Record(cfg, cleaned, d, node, binding, true, f);
    RecordMakes(cfg, cleaned, d, node, binding, true, f);
    MakesAround(cfg, w, cleaned, g.world, g.world, g.result, d, node, binding.vm, f);
  }

  lemma FreshMakes(cfg: Config, w: World, d: UsbDevice, node: string, vm: string, socket: string, view: Guest,
                   names: seq<string>, f: AttachFaults)
    requires view.Live?
    ensures var g := AttachFresh(cfg, w, d, node, vm, socket, view, names, f);
      Makes(cfg, w, (g.world, g.result), d, node, vm, f)
  {
    var guest := GuestAt(w, socket);
    if guest.Live? && f.attach.Taken? && f.attach.port !in guest.ports {
      var issued := Log(w, UsbAttachCommand(socket, node, BoundDrivers(w.host.drivers, names)));
      var attached := WithPorts(issued, socket, guest.ports[f.attach.port := f.shown]);
      var stale := StalePort(Get(w.persistent.ports, d.sysName), vm, view);
      var binding := BindingFor(d, vm, f.attach.port, view.generation);
      SettleMakes(cfg, attached, d, node, socket, stale, binding, f);
      var g := SettleTaken(cfg, attached, d, node, socket, stale, binding, f);
      MakesAround(cfg, w, attached, g.world, g.world, g.result, d, node, vm, f);
    }
  }

  lemma ConnectMakes(cfg: Config, w: World, d: UsbDevice, node: string, vm: string, socket: string,
                     preflight: Option<Guest>, changed: bool, names: seq<string>, f: AttachFaults)
    requires preflight.Some? ==> preflight.value.Live?
    ensures var g := Connect(cfg, w, d, node, vm, socket, preflight, changed, names, f);
      Makes(cfg, w, (g.world, g.result), d, node, vm, f)
  {
    if !(preflight.None? && Listing(GuestAt(w, socket), f.listFails).None?) {
      var view := if preflight.Some? then preflight.value else GuestAt(w, socket);
      var known := Get(w.persistent.ports, d.sysName);
      if Reusable(known, d, vm, view) {
        RecordMakes(cfg, w, d, node, known.value, changed, f);
      } else {
        FreshMakes(cfg, w, d, node, vm, socket, view, names, f);
      }
    }
  }

  lemma ClaimAndConnectMakes(cfg: Config, w: World, d: UsbDevice, node: string, vm: string, socket: string,
                             preflight: Option<Guest>, changed: bool, f: AttachFaults)
    requires preflight.Some? ==> preflight.value.Live?
    ensures var g := ClaimAndConnect(cfg, w, d, node, vm, socket, preflight, changed, f);
      Makes(cfg, w, (g.world, g.result), d, node, vm, f)
  {
    var (w1, stop) := Prepare(cfg, w, d, f);
    PrepareFrame(cfg, w, d, f);
    if stop.None? {
      var g := Connect(cfg, w1, d, node, vm, socket, preflight, changed, f.interfaces.value, f);
      ConnectMakes(cfg, w1, d, node, vm, socket, preflight, changed, f.interfaces.value, f);
      MakesAround(cfg, w, w1, g.world, g.world, g.result, d, node, vm, f);
    } else {
      StopsUnsaved(cfg, w, d, f);
    }
  }

  lemma StopsUnsaved(cfg: Config, w: World, d: UsbDevice, f: AttachFaults)
    ensures var stop := Prepare(cfg, w, d, f).1; stop != Some(Attached) && stop != Some(Rejected(SaveFailed))
  {
  }

  lemma UnderGuardMakes(cfg: Config, w: World, d: UsbDevice, node: string, vm: string, socket: string,
                        preflight: Option<Guest>, changed: bool, f: AttachFaults)
    requires preflight.Some? ==> preflight.value.Live?
    ensures Makes(cfg, w, UnderGuard(cfg, w, d, node, vm, socket, preflight, changed, f), d, node, vm, f)
  {
    var armed := Armed(cfg, w, d);
    if !(armed && (d.sysName !in w.host.authorized || f.authorizeFails)) {
      var w1 := if armed then WithAuthorized(w, d.sysName, true, false) else w;
      var g := ClaimAndConnect(cfg, w1, d, node, vm, socket, preflight, changed, f);
      ClaimAndConnectMakes(cfg, w1, d, node, vm, socket, preflight, changed, f);
      MakesAround(cfg, w, w1, g.world, Drop(g.world, d, armed && !g.committed, f), g.result, d, node, vm, f);
    }
  }

  /** An attach that succeeds, or ends because one of its saves failed, has
      written the holder and the selection, the mark unless the first save
      failed, and the port unless the first or second did. Each is on disk once
      a save after it succeeded. A move before that has dropped the old ones. */
  lemma AttachMakes(cfg: Config, w: World, d: UsbDevice, vm: string, f: AttachFaults)
    requires vm in cfg.sockets && d.node.Some?
    requires MustMove(w, d, vm) ==> DetachOne(cfg, w, d, false, f.move).1.Done?
    ensures Makes(cfg, if MustMove(w, d, vm) then DetachOne(cfg, w, d, false, f.move).0 else w,
                  AttachTo(cfg, w, d, vm, f), d, d.node.value, vm, f)
  {
    var guest := GuestAt(w, cfg.sockets[vm]);
    if !(Preflighted(cfg, d) && Listing(guest, f.preflightFails).None?) {
      var preflight := if Preflighted(cfg, d) then Some(guest) else None;
      if MustMove(w, d, vm) {
        UnderGuardMakes(cfg, DetachOne(cfg, w, d, false, f.move).0, d, d.node.value, vm, cfg.sockets[vm], preflight,
                        true, f);
      } else {
        UnderGuardMakes(cfg, w, d, d.node.value, vm, cfg.sockets[vm], preflight,
                        Get(w.usbVms, d.node.value) != Some(vm), f);
      }
    }
  }
}
