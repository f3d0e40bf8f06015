/**
 What surrounds the manager: the VMs behind their sockets, the host's sysfs,
 and the record of every command and notification. Each command takes what
 may go wrong with it as an argument, and fails without an effect unless it
 says otherwise.
 */
module Machine {
  import opened Prelude
  import opened Crosvm
  import opened World
  import opened UsbSpec
  import opened PciSpec

  class Surroundings {
    var guests: map<string, Guest>
    var host: Host
    var log: seq<Action>
    var gateLog: seq<GateAction>

    constructor (guests: map<string, Guest>, host: Host)
      ensures this.guests == guests && this.host == host && log == [] && gateLog == []
    {
      this.guests, this.host, log, gateLog := guests, host, [], [];
    }

    method Notify(action: Action)
      modifies `log
      ensures log == old(log) + [action]
    {
      log := log + [action];
    }

    // ----- Crosvm -----

    method UsbList(socket: string, fails: bool) returns (live: Option<map<nat, Ident>>)
      ensures live == Listing(GuestIn(guests, socket), fails)
    {
      if socket in guests && guests[socket].Live? && !fails {
        live := Some(guests[socket].ports);
      } else {
        live := None;
      }
    }

    /** A lost attach took effect without the port becoming known. */
    method UsbAttach(socket: string, node: string, names: seq<string>, f: AttachFaults) returns (port: Option<nat>)
      modifies `guests, `log
      ensures log == old(log) + [UsbAttachCommand(socket, node, BoundDrivers(host.drivers, names))]
      ensures var guest := GuestIn(old(guests), socket);
        if !guest.Live? || f.attach.Refused? || f.attach.port in guest.ports then guests == old(guests) && port == None
        else
          && guests == old(guests)[socket := guest.(ports := guest.ports[f.attach.port := f.shown])]
          && port == if f.attach.Taken? then Some(f.attach.port) else None
    {
      Notify(UsbAttachCommand(socket, node, BoundDrivers(host.drivers, names)));
      port := None;
      if socket in guests && guests[socket].Live? && !f.attach.Refused? && f.attach.port !in guests[socket].ports {
        var guest := guests[socket];
        guests := guests[socket := guest.(ports := guest.ports[f.attach.port := f.shown])];
        if f.attach.Taken? {
          port := Some(f.attach.port);
        }
      }
    }

    method UsbDetach(socket: string, port: nat, fails: bool) returns (error: Option<Failure>)
      requires GuestIn(guests, socket).Live?
      modifies `guests, `log
      ensures log == old(log) + [UsbDetachCommand(socket, port)]
      ensures guests == if fails then old(guests) else
                          old(guests)[socket := old(guests)[socket].(ports := Without(old(guests)[socket].ports, port))]
      ensures error == if fails then Some(CrosvmFailed) else None
    {
      Notify(UsbDetachCommand(socket, port));
      if fails {
        return Some(CrosvmFailed);
      }
      guests := guests[socket := guests[socket].(ports := Without(guests[socket].ports, port))];
      error := None;
    }

    /** A lost add took effect but was never confirmed. */
    method VfioAdd(socket: string, address: string, outcome: VfioOutcome) returns (ok: bool)
      modifies `guests, `log
      ensures var guest := GuestIn(old(guests), socket);
        if !guest.Live? || outcome.VfioUnlisted? then !ok && guests == old(guests) && log == old(log)
        else if address in guest.vfio then ok && guests == old(guests) && log == old(log)
        else
          && log == old(log) + [VfioAddCommand(socket, address)]
          && guests == (if outcome.VfioRefused? then old(guests)
                        else old(guests)[socket := guest.(vfio := guest.vfio + {address})])
          && ok == outcome.VfioConfirmed?
    {
      if socket !in guests || !guests[socket].Live? || outcome.VfioUnlisted? {
        return false;
      }
      var guest := guests[socket];
      if address in guest.vfio {
        return true;
      }
      Notify(VfioAddCommand(socket, address));
      if outcome.VfioRefused? {
        return false;
      }
      guests := guests[socket := guest.(vfio := guest.vfio + {address})];
      ok := outcome.VfioConfirmed?;
    }

    method VfioRemove(socket: string, address: string, outcome: VfioOutcome) returns (ok: bool)
      modifies `guests, `log
      ensures var guest := GuestIn(old(guests), socket);
        if !guest.Live? || outcome.VfioUnlisted? then !ok && guests == old(guests) && log == old(log)
        else if address !in guest.vfio then ok && guests == old(guests) && log == old(log)
        else
          && log == old(log) + [VfioRemoveCommand(socket, address)]
          && guests == (if outcome.VfioRefused? then old(guests)
                        else old(guests)[socket := guest.(vfio := guest.vfio - {address})])
          && ok == outcome.VfioConfirmed?
    {
      if socket !in guests || !guests[socket].Live? || outcome.VfioUnlisted? {
        return false;
      }
      var guest := guests[socket];
      if address !in guest.vfio {
        return true;
      }
      Notify(VfioRemoveCommand(socket, address));
      if outcome.VfioRefused? {
        return false;
      }
      guests := guests[socket := guest.(vfio := guest.vfio - {address})];
      ok := outcome.VfioConfirmed?;
    }

    // ----- sysfs -----

    method Authorize(sysName: string, value: bool, fails: bool) returns (ok: bool)
      modifies `host
      ensures ok <==> sysName in old(host).authorized && !fails
      ensures host == if ok then old(host).(authorized := old(host).authorized[sysName := value]) else old(host)
    {
      if sysName !in host.authorized || fails {
        return false;
      }
      host := host.(authorized := host.authorized[sysName := value]);
      ok := true;
    }

    /** Asks the kernel to probe; `driver` is what it binds, if anything. */
    method Probe(name: string, driver: Option<Driver>)
      modifies `host, `gateLog
      ensures gateLog == old(gateLog) + [GateAction.Probe(name)]
      ensures host == match driver
                      case None => old(host)
                      case Some(k) => old(host).(drivers := old(host).drivers[name := k])
    {
      match driver {
        case None =>
        case Some(k) => host := host.(drivers := host.drivers[name := k]);
      }
      gateLog := gateLog + [GateAction.Probe(name)];
    }

    /** Unbinds the driver of an interface. */
    method Release(name: string, fails: bool)
      modifies `host, `gateLog
      ensures gateLog == old(gateLog) + [GateAction.Release(name)]
      ensures host == if fails then old(host) else old(host).(drivers := Without(old(host).drivers, name))
    {
      if !fails {
        host := host.(drivers := Without(host.drivers, name));
      }
      gateLog := gateLog + [GateAction.Release(name)];
    }

    /** Overrides the driver of one function and binds it, unless it already is. */
    method BindVfio(address: string, fails: bool) returns (ok: bool)
      modifies `host, `log
      ensures if Get(old(host).pciDrivers, address) == Some(VFIO_PCI) then ok && host == old(host) && log == old(log)
              else if fails then !ok && host == old(host) && log == old(log)
              else
                && ok && log == old(log) + [Action.BindVfio(address)]
                && host == old(host).(pciDrivers := old(host).pciDrivers[address := VFIO_PCI])
    {
      if address in host.pciDrivers && host.pciDrivers[address] == VFIO_PCI {
        return true;
      }
      if fails {
        return false;
      }
      Notify(Action.BindVfio(address));
      host := host.(pciDrivers := host.pciDrivers[address := VFIO_PCI]);
      ok := true;
    }
  }
}
