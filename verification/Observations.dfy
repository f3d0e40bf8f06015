/**
 What an observation announces, exactly, and what it takes back for devices
 that were unplugged.
 */
module Observations {
  import opened Prelude
  import opened World
  import opened UsbSpec
  import opened ReconcileSpec
  import PciRules
  import PciSpec

  /** How often an action was added to the log. */
  ghost function Times(log: seq<Action>, log': seq<Action>, action: Action): nat
    requires log <= log'
  {
    multiset(log'[|log|..])[action]
  }

  lemma TimesAdd(a: seq<Action>, b: seq<Action>, c: seq<Action>)
    requires a <= b <= c
    ensures forall action :: Times(a, c, action) == Times(a, b, action) + Times(b, c, action)
  {
    assert c[|a|..] == b[|a|..] + c[|b|..];
  }

  lemma TimesOf(log: seq<Action>, more: seq<Action>)
    ensures forall action :: Times(log, log + more, action) == multiset(more)[action]
  {
    assert (log + more)[|log|..] == more;
  }

  // ----- forgetting one device -----

  /** The port on record, if the record is of the VM that runs now and the VM
      still shows the recorded device there. */
  ghost predicate OwnPort(guest: Guest, binding: Option<Binding>, p: nat) {
    && binding.Some? && guest.Live? && binding.value.generation == guest.generation && binding.value.port == p
    && p in guest.ports && Shows(guest.ports[p], binding.value.vid, binding.value.pid)
  }

  /** What keeps the port from being given back. */
  ghost predicate ForgetError(cfg: Config, w: World, key: string, f: ForgetFaults, error: Failure) {
    && key in w.persistent.ports
    && var b := w.persistent.ports[key];
       if b.vm !in cfg.sockets then error == UnknownVm
       else
         var guest := GuestAt(w, cfg.sockets[b.vm]);
         && error == CrosvmFailed && !guest.NoSocket? && b.generation == guest.generation
         && (guest.Stale? || f.listFails || (f.detachFails && OwnPort(guest, Some(b), b.port)))
  }

  /** The port is the one on record for one of these names. */
  ghost predicate Returned(cfg: Config, w: World, keys: set<string>, socket: string, p: nat) {
    exists key :: key in keys && key in w.persistent.ports
                  && Get(cfg.sockets, w.persistent.ports[key].vm) == Some(socket)
                  && OwnPort(GuestAt(w, socket), Get(w.persistent.ports, key), p)
  }

  /** The VMs' ports are those they had without what is on record for the names. */
  ghost predicate OnlyReturned(cfg: Config, w: World, w': World, keys: set<string>) {
    && w'.guests.Keys == w.guests.Keys
    && forall k :: k in w.guests ==> Left(cfg, w, w.guests[k], w'.guests[k], keys, k)
  }

  ghost predicate Left(cfg: Config, w: World, guest: Guest, guest': Guest, keys: set<string>, k: string) {
    if guest.Live? then
      && guest'.Live? && guest'.generation == guest.generation && guest'.vfio == guest.vfio
      && (forall p: nat :: p in guest'.ports ==> Get(guest.ports, p) == Some(guest'.ports[p]))
      && (forall p: nat :: p in guest.ports ==> (p !in guest'.ports <==> Returned(cfg, w, keys, k, p)))
    else guest' == guest
  }

  /** The devices are off the records, and nothing else is. */
  ghost predicate OffRecord(w: World, w': World, keys: set<string>) {
    && w'.persistent == w.persistent.(ports := w.persistent.ports - keys)
    && w'.usbVms == w.usbVms - (set k | k in keys && k in w.observedUsb && w.observedUsb[k].node.Some?
                                        :: w.observedUsb[k].node.value)
    && w'.pending == w.pending - (set k | k in keys && k in w.observedUsb :: PersistentId(w.observedUsb[k]))
  }

  /** The log tells of these names leaving, once each as given, and of ports
      given back that are on record for them. */
  ghost predicate Tells(cfg: Config, w: World, w': World, keys: set<string>) {
    && w.log <= w'.log
    && forall i :: |w.log| <= i < |w'.log| ==> Told(cfg, w, keys, w'.log[i])
  }

  ghost predicate Told(cfg: Config, w: World, keys: set<string>, action: Action) {
    match action
    case UsbDisconnected(key) => key in keys
    case UsbDetachCommand(socket, p) => Returned(cfg, w, keys, socket, p)
    case _ => false
  }

  /** The recorded port is given back, unless that fails or there is none. */
  lemma DropPortCases(cfg: Config, w: World, b: Binding, f: ForgetFaults)
    requires b.vm in cfg.sockets
    ensures var socket, (w1, error) := cfg.sockets[b.vm], DropPort(cfg, w, b, f);
      var guest := GuestAt(w, socket);
      var owned := OwnPort(guest, Some(b), b.port);
      var current := !guest.NoSocket? && b.generation == guest.generation;
      && w1 == w.(guests := w1.guests, log := w1.log)
      && error == (if current && (guest.Stale? || f.listFails || (f.detachFails && owned)) then Some(CrosvmFailed)
                   else None)
      && (w1.log == w.log || (owned && w1.log == w.log + [UsbDetachCommand(socket, b.port)]))
      && w1.guests == (if owned && error.None? then w.guests[socket := guest.(ports := Without(guest.ports, b.port))]
                       else w.guests)
  {
  }

  lemma OneIsReturned(cfg: Config, w: World, key: string)
    requires key in w.persistent.ports
    ensures var b := w.persistent.ports[key];
      forall k, p: nat :: Returned(cfg, w, {key}, k, p) <==>
                          Get(cfg.sockets, b.vm) == Some(k) && p == b.port && OwnPort(GuestAt(w, k), Some(b), p)
  {
  }

  lemma DropPortReturns(cfg: Config, w: World, w1: World, key: string)
    requires key in w.persistent.ports && w.persistent.ports[key].vm in cfg.sockets
    requires var b := w.persistent.ports[key];
      var socket := cfg.sockets[b.vm];
      var guest := GuestAt(w, socket);
      w1.guests == (if OwnPort(guest, Some(b), b.port)
                    then w.guests[socket := guest.(ports := Without(guest.ports, b.port))]
                    else w.guests)
    ensures OnlyReturned(cfg, w, w1, {key})
  {
    OneIsReturned(cfg, w, key);
    forall k | k in w.guests ensures k in w1.guests && Left(cfg, w, w.guests[k], w1.guests[k], {key}, k) {
      assert GuestAt(w, k) == w.guests[k];
    }
  }

  lemma FinishForgetSettles(cfg: Config, w: World, key: string, f: ForgetFaults)
    requires key in w.observedUsb
    ensures var (w', outcome) := FinishForget(cfg, w, key, w.observedUsb[key], f);
      && w'.guests == w.guests && w'.log == w.log + [UsbDisconnected(key)]
      && outcome == (if cfg.persistency && f.saveFails then Failed(SaveFailed) else Done)
      && (outcome.Done? ==> OffRecord(w, w', {key}) && w'.disk == (if cfg.persistency then w'.persistent else w.disk))
  {
    OneOffRecord(w, key);
  }

  lemma OneOffRecord(w: World, key: string)
    requires key in w.observedUsb
    ensures var d := w.observedUsb[key];
      && (set k | k in {key} && k in w.observedUsb :: PersistentId(w.observedUsb[k])) == {PersistentId(d)}
      && w.usbVms - (set k | k in {key} && k in w.observedUsb && w.observedUsb[k].node.Some?
                             :: w.observedUsb[k].node.value)
         == if d.node.Some? then Without(w.usbVms, d.node.value) else w.usbVms
  {
    var d := w.observedUsb[key];
    var nodes := set k | k in {key} && k in w.observedUsb && w.observedUsb[k].node.Some?
                         :: w.observedUsb[k].node.value;
    assert nodes == if d.node.Some? then {d.node.value} else {};
  }

  /** Where one of these errors applies, forgetting the name reports it, and
      only the log may differ afterwards. */
  lemma ForgetFails(cfg: Config, w: World, key: string, f: ForgetFaults, error: Failure)
    requires key in w.observedUsb && ForgetError(cfg, w, key, f, error)
    ensures var (w', outcome) := ForgetGone(cfg, w, key, w.observedUsb[key], f);
      outcome == Failed(error) && w' == w.(log := w'.log) && Tells(cfg, w, w', {key})
  {
    if w.persistent.ports[key].vm in cfg.sockets {
      DropPortCases(cfg, w, w.persistent.ports[key], f);
      OneIsReturned(cfg, w, key);
    }
  }

  /** Where none does, the name's port, if the VM still shows the recorded
      device there, is gone, which is told, and so are its records once the
      save succeeds. */
  lemma ForgetSettles(cfg: Config, w: World, key: string, f: ForgetFaults)
    requires key in w.observedUsb && forall e :: !ForgetError(cfg, w, key, f, e)
    ensures var (w', outcome) := ForgetGone(cfg, w, key, w.observedUsb[key], f);
      && outcome == (if cfg.persistency && f.saveFails then Failed(SaveFailed) else Done)
      && OnlyReturned(cfg, w, w', {key}) && Tells(cfg, w, w', {key})
      && (outcome.Done? ==> OffRecord(w, w', {key}) && w'.disk == (if cfg.persistency then w'.persistent else w.disk))
      && forall k :: Times(w.log, w'.log, UsbDisconnected(k)) == if k == key then 1 else 0
  {
    var d := w.observedUsb[key];
    if key !in w.persistent.ports {
      FinishForgetSettles(cfg, w, key, f);
      NoneReturned(cfg, w, FinishForget(cfg, w, key, d, f).0, key);
      TimesOf(w.log, [UsbDisconnected(key)]);
    } else {
      var b := w.persistent.ports[key];
      assert !ForgetError(cfg, w, key, f, UnknownVm) && !ForgetError(cfg, w, key, f, CrosvmFailed);
      DropPortCases(cfg, w, b, f);
      AfterDrop(cfg, w, DropPort(cfg, w, b, f).0, key, f);
    }
  }

  lemma AfterDrop(cfg: Config, w: World, w1: World, key: string, f: ForgetFaults)
    requires key in w.observedUsb && key in w.persistent.ports && w.persistent.ports[key].vm in cfg.sockets
    requires w1 == w.(guests := w1.guests, log := w1.log)
    requires var b := w.persistent.ports[key];
      var socket := cfg.sockets[b.vm];
      var guest := GuestAt(w, socket);
      var owned := OwnPort(guest, Some(b), b.port);
      && (w1.log == w.log || (owned && w1.log == w.log + [UsbDetachCommand(socket, b.port)]))
      && w1.guests == if owned then w.guests[socket := guest.(ports := Without(guest.ports, b.port))] else w.guests
    ensures var (w', outcome) := FinishForget(cfg, w1, key, w.observedUsb[key], f);
      && outcome == (if cfg.persistency && f.saveFails then Failed(SaveFailed) else Done)
      && OnlyReturned(cfg, w, w', {key}) && Tells(cfg, w, w', {key})
      && (outcome.Done? ==> OffRecord(w, w', {key}) && w'.disk == (if cfg.persistency then w'.persistent else w.disk))
      && forall k :: Times(w.log, w'.log, UsbDisconnected(k)) == if k == key then 1 else 0
  {
    var b, d := w.persistent.ports[key], w.observedUsb[key];
    OneIsReturned(cfg, w, key);
    if w1.log != w.log {
      assert Returned(cfg, w, {key}, cfg.sockets[b.vm], b.port);
    }
    DropPortReturns(cfg, w, w1, key);
    FinishForgetSettles(cfg, w1, key, f);
    Concludes(cfg, w, w1, FinishForget(cfg, w1, key, d, f).0, key);
  }

  lemma NoneReturned(cfg: Config, w: World, w': World, key: string)
    requires key !in w.persistent.ports && w'.guests == w.guests
    ensures OnlyReturned(cfg, w, w', {key})
  {
    assert forall k, p: nat :: !Returned(cfg, w, {key}, k, p);
  }

  lemma Concludes(cfg: Config, w: World, w1: World, w': World, key: string)
    requires key in w.persistent.ports && w1 == w.(guests := w1.guests, log := w1.log)
    requires OnlyReturned(cfg, w, w1, {key}) && w'.guests == w1.guests && w'.log == w1.log + [UsbDisconnected(key)]
    requires w1.log == w.log
             || exists socket, p :: Returned(cfg, w, {key}, socket, p)
                                    && w1.log == w.log + [UsbDetachCommand(socket, p)]
    ensures OnlyReturned(cfg, w, w', {key}) && Tells(cfg, w, w', {key})
    ensures forall k :: Times(w.log, w'.log, UsbDisconnected(k)) == if k == key then 1 else 0
  {
    TimesOf(w1.log, [UsbDisconnected(key)]);
    if w1.log != w.log {
      var socket, p :| Returned(cfg, w, {key}, socket, p) && w1.log == w.log + [UsbDetachCommand(socket, p)];
      TimesOf(w.log, [UsbDetachCommand(socket, p)]);
    }
    TimesAdd(w.log, w1.log, w'.log);
  }

  // ----- forgetting all that left -----

  ghost function Departed(w: World, order: seq<string>, scanned: map<string, UsbDevice>): set<string> {
    set k | k in order && k in w.observedUsb && k !in scanned
  }

  lemma LaterReturned(cfg: Config, w: World, w1: World, key: string, rest: set<string>, socket: string, p: nat)
    requires OnlyReturned(cfg, w, w1, {key}) && OffRecord(w, w1, {key})
    requires Returned(cfg, w1, rest, socket, p)
    ensures Returned(cfg, w, {key} + rest, socket, p)
  {
    var k :| k in rest && k in w1.persistent.ports && Get(cfg.sockets, w1.persistent.ports[k].vm) == Some(socket)
             && OwnPort(GuestAt(w1, socket), Get(w1.persistent.ports, k), p);
    assert k in {key} + rest && w.persistent.ports[k] == w1.persistent.ports[k];
    assert Left(cfg, w, w.guests[socket], w1.guests[socket], {key}, socket);
    assert OwnPort(GuestAt(w, socket), Get(w.persistent.ports, k), p);
  }

  lemma MoreReturned(cfg: Config, w: World, keys: set<string>, more: set<string>, socket: string, p: nat)
    requires Returned(cfg, w, keys, socket, p) && keys <= more
    ensures Returned(cfg, w, more, socket, p)
  {
  }

  lemma ReturnedInTurn(cfg: Config, w: World, w1: World, key: string, rest: set<string>, socket: string, p: nat)
    requires OnlyReturned(cfg, w, w1, {key}) && OffRecord(w, w1, {key})
    requires Returned(cfg, w, {key} + rest, socket, p) && p in GuestAt(w1, socket).ports
    requires GuestAt(w1, socket).Live?
    ensures Returned(cfg, w1, rest, socket, p)
  {
    var k :| k in {key} + rest && k in w.persistent.ports && Get(cfg.sockets, w.persistent.ports[k].vm) == Some(socket)
             && OwnPort(GuestAt(w, socket), Get(w.persistent.ports, k), p);
    assert Left(cfg, w, w.guests[socket], w1.guests[socket], {key}, socket);
    if k == key {
      assert Returned(cfg, w, {key}, socket, p);
      assert false;
    }
    assert w1.persistent.ports[k] == w.persistent.ports[k];
    assert OwnPort(GuestAt(w1, socket), Get(w1.persistent.ports, k), p);
  }

  lemma OnlyReturnedTogether(cfg: Config, w: World, w1: World, w2: World, key: string, rest: set<string>)
    requires OnlyReturned(cfg, w, w1, {key}) && OffRecord(w, w1, {key}) && OnlyReturned(cfg, w1, w2, rest)
    ensures OnlyReturned(cfg, w, w2, {key} + rest)
  {
    forall k | k in w.guests ensures Left(cfg, w, w.guests[k], w2.guests[k], {key} + rest, k) {
      assert Left(cfg, w, w.guests[k], w1.guests[k], {key}, k) && Left(cfg, w1, w1.guests[k], w2.guests[k], rest, k);
      if w.guests[k].Live? {
        forall p: nat | p in w.guests[k].ports
          ensures p !in w2.guests[k].ports <==> Returned(cfg, w, {key} + rest, k, p)
        {
          if p !in w1.guests[k].ports {
            MoreReturned(cfg, w, {key}, {key} + rest, k, p);
          } else if p !in w2.guests[k].ports {
            LaterReturned(cfg, w, w1, key, rest, k, p);
          } else if Returned(cfg, w, {key} + rest, k, p) {
            ReturnedInTurn(cfg, w, w1, key, rest, k, p);
          }
        }
      }
    }
  }

  lemma OffRecordTogether(w: World, w1: World, w2: World, key: string, rest: set<string>)
    requires OffRecord(w, w1, {key}) && OffRecord(w1, w2, rest) && w1.observedUsb == w.observedUsb
    ensures OffRecord(w, w2, {key} + rest)
  {
    assert w.persistent.ports - {key} - rest == w.persistent.ports - ({key} + rest);
  }

  lemma TellsTogether(cfg: Config, w: World, w1: World, w2: World, key: string, rest: set<string>)
    requires OnlyReturned(cfg, w, w1, {key}) && OffRecord(w, w1, {key})
    requires Tells(cfg, w, w1, {key}) && Tells(cfg, w1, w2, rest)
    ensures Tells(cfg, w, w2, {key} + rest)
  {
    forall i | |w.log| <= i < |w2.log| ensures Told(cfg, w, {key} + rest, w2.log[i]) {
      if i < |w1.log| {
        assert w2.log[i] == w1.log[i] && Told(cfg, w, {key}, w1.log[i]);
        ToldMore(cfg, w, {key}, {key} + rest, w1.log[i]);
      } else if w2.log[i].UsbDetachCommand? {
        LaterReturned(cfg, w, w1, key, rest, w2.log[i].socket, w2.log[i].port);
      }
    }
  }

  lemma ToldMore(cfg: Config, w: World, keys: set<string>, more: set<string>, action: Action)
    requires Told(cfg, w, keys, action) && keys <= more
    ensures Told(cfg, w, more, action)
  {
    if action.UsbDetachCommand? {
      MoreReturned(cfg, w, keys, more, action.socket, action.port);
    }
  }

  /** The names are told of as often as they come up, and are off the records,
      and their own ports, where their VMs still show them, are gone; nothing
      happens to anything else, even if not all could be forgotten. */
  ghost predicate AllForgotten(cfg: Config, w: World, s: (World, Outcome), keys: set<string>, order: seq<string>) {
    && Tells(cfg, w, s.0, keys) && OnlyForgets(w, s.0)
    && (s.1.Done? ==>
          && OnlyReturned(cfg, w, s.0, keys) && OffRecord(w, s.0, keys)
          && s.0.disk == (if cfg.persistency && keys != {} then s.0.persistent else w.disk)
          && forall k :: Times(w.log, s.0.log, UsbDisconnected(k)) == if k in keys then multiset(order)[k] else 0)
  }

  ghost predicate OnlyForgets(w: World, w': World) {
    w' == w.(guests := w'.guests, log := w'.log, persistent := w'.persistent, usbVms := w'.usbVms,
             pending := w'.pending, disk := w'.disk)
  }

  /** All that left are forgotten, and none that stayed. */
  lemma {:induction false} ForgetAllSettles(cfg: Config, w: World, order: seq<string>, scanned: map<string, UsbDevice>,
                                            fs: string -> ForgetFaults)
    ensures AllForgotten(cfg, w, ForgetAllGone(cfg, w, order, scanned, fs), Departed(w, order, scanned), order)
    decreases |order|
  {
    if order == [] {
      NothingForgotten(cfg, w);
    } else {
      var key, rest := order[0], order[1..];
      DepartedStep(w, order, scanned);
      if key in scanned || key !in w.observedUsb {
        ForgetAllSettles(cfg, w, rest, scanned, fs);
        KeptIsSkipped(cfg, w, ForgetAllGone(cfg, w, rest, scanned, fs), Departed(w, rest, scanned), key, rest);
      } else {
        TurnSettles(cfg, w, key, fs(key));
        var (w1, outcome) := ForgetGone(cfg, w, key, w.observedUsb[key], fs(key));
        if outcome.Done? {
          ForgetAllSettles(cfg, w1, rest, scanned, fs);
          SameDeparted(w, w1, rest, scanned);
          ForgottenTogether(cfg, w, w1, ForgetAllGone(cfg, w1, rest, scanned, fs), key, Departed(w, rest, scanned),
                            rest);
        } else {
          StoppedShort(cfg, w, (w1, outcome), key, Departed(w, order, scanned), order);
        }
      }
    }
  }

  lemma DepartedStep(w: World, order: seq<string>, scanned: map<string, UsbDevice>)
    requires order != []
    ensures order == [order[0]] + order[1..]
    ensures forall k :: k in Departed(w, order[1..], scanned) ==> k in order[1..]
    ensures if order[0] in scanned || order[0] !in w.observedUsb then
              order[0] !in Departed(w, order[1..], scanned)
              && Departed(w, order, scanned) == Departed(w, order[1..], scanned)
            else
              && Departed(w, order, scanned) == {order[0]} + Departed(w, order[1..], scanned)
              && (order[0] in order[1..] ==> order[0] in Departed(w, order[1..], scanned))
  {
    assert order == [order[0]] + order[1..];
  }

  lemma SameDeparted(w: World, w1: World, order: seq<string>, scanned: map<string, UsbDevice>)
    requires w1.observedUsb == w.observedUsb
    ensures Departed(w1, order, scanned) == Departed(w, order, scanned)
  {
  }

  lemma KeptIsSkipped(cfg: Config, w: World, s: (World, Outcome), keys: set<string>, key: string, rest: seq<string>)
    requires AllForgotten(cfg, w, s, keys, rest) && key !in keys
    ensures AllForgotten(cfg, w, s, keys, [key] + rest)
  {
  }

  lemma StoppedShort(cfg: Config, w: World, s: (World, Outcome), key: string, keys: set<string>, order: seq<string>)
    requires AllForgotten(cfg, w, s, {key}, [key]) && s.1.Failed? && key in keys
    ensures AllForgotten(cfg, w, s, keys, order)
  {
    TellsMore(cfg, w, s.0, {key}, keys);
  }

  lemma ForgottenTogether(cfg: Config, w: World, w1: World, s: (World, Outcome), key: string, keys: set<string>,
                          rest: seq<string>)
    requires AllForgotten(cfg, w, (w1, Done), {key}, [key]) && AllForgotten(cfg, w1, s, keys, rest)
    requires forall k :: k in keys ==> k in rest
    requires key in rest ==> key in keys
    ensures AllForgotten(cfg, w, s, {key} + keys, [key] + rest)
  {
    TellsTogether(cfg, w, w1, s.0, key, keys);
    if s.1.Done? {
      OnlyReturnedTogether(cfg, w, w1, s.0, key, keys);
      OffRecordTogether(w, w1, s.0, key, keys);
      TimesAdd(w.log, w1.log, s.0.log);
      assert keys == {} ==> w1.persistent.ports - keys == w1.persistent.ports;
    }
  }

  lemma TellsMore(cfg: Config, w: World, w': World, keys: set<string>, more: set<string>)
    requires Tells(cfg, w, w', keys) && keys <= more
    ensures Tells(cfg, w, w', more)
  {
    forall i | |w.log| <= i < |w'.log| ensures Told(cfg, w, more, w'.log[i]) {
      ToldMore(cfg, w, keys, more, w'.log[i]);
    }
  }

  lemma NothingForgotten(cfg: Config, w: World)
    ensures OnlyReturned(cfg, w, w, {}) && OffRecord(w, w, {})
  {
    assert w.persistent.ports - {} == w.persistent.ports;
  }

  lemma TurnSettles(cfg: Config, w: World, key: string, f: ForgetFaults)
    requires key in w.observedUsb
    ensures AllForgotten(cfg, w, ForgetGone(cfg, w, key, w.observedUsb[key], f), {key}, [key])
  {
    ForgetFields(cfg, w, key, w.observedUsb[key], f);
    if e :| ForgetError(cfg, w, key, f, e) {
      ForgetFails(cfg, w, key, f, e);
    } else {
      ForgetSettles(cfg, w, key, f);
    }
  }

  lemma ForgetFields(cfg: Config, w: World, key: string, d: UsbDevice, f: ForgetFaults)
    ensures OnlyForgets(w, ForgetGone(cfg, w, key, d, f).0)
  {
    if key in w.persistent.ports && w.persistent.ports[key].vm in cfg.sockets {
      DropPortCases(cfg, w, w.persistent.ports[key], f);
    }
  }

  // ----- who is announced -----

  /** Exactly the devices not seen before are announced. */
  lemma {:induction false} NewcomersOnce(observed: map<string, UsbDevice>, arrivals: seq<string>)
    ensures forall a :: a in Newcomers(observed, arrivals) ==> a.UsbConnected?
    ensures forall k :: multiset(Newcomers(observed, arrivals))[UsbConnected(k)] ==
                        if k in observed then 0 else multiset(arrivals)[k]
  {
    if arrivals != [] {
      NewcomersOnce(observed, arrivals[1..]);
      assert arrivals == [arrivals[0]] + arrivals[1..];
    }
  }

  ghost function AddressesOf(devices: seq<PciRules.Routed>): seq<string> {
    seq(|devices|, i requires 0 <= i < |devices| => devices[i].device.address)
  }

  lemma {:induction false} PciNewsOnce(observed: set<string>, devices: seq<PciRules.Routed>)
    ensures forall a :: a in PciNews(observed, devices) ==> a.PciConnected?
    ensures forall x :: multiset(PciNews(observed, devices))[PciConnected(x)] ==
                        if x in observed then 0 else multiset(AddressesOf(devices))[x]
  {
    if devices != [] {
      var n := |devices| - 1;
      PciNewsOnce(observed, devices[..n]);
      assert AddressesOf(devices) == AddressesOf(devices[..n]) + [devices[n].device.address];
    }
  }

  lemma {:induction false} PciGoneOnce(order: seq<string>, scanned: set<string>)
    ensures forall a :: a in PciGone(order, scanned) ==> a.PciDisconnected?
    ensures forall x :: multiset(PciGone(order, scanned))[PciDisconnected(x)] ==
                        if x in scanned then 0 else multiset(order)[x]
  {
    if order != [] {
      var n := |order| - 1;
      PciGoneOnce(order[..n], scanned);
      assert order == order[..n] + [order[n]];
    }
  }

  /** The table of a scan holds the names of the scan. */
  lemma {:induction false} ScanMapHolds(devices: seq<RoutedUsb>, k: string)
    ensures k in ScanMap(devices) <==> exists i :: 0 <= i < |devices| && devices[i].device.sysName == k
  {
    if devices != [] {
      var n := |devices| - 1;
      ScanMapHolds(devices[..n], k);
      if i :| 0 <= i < n && devices[..n][i].device.sysName == k {
        assert devices[i].device.sysName == k;
      }
      if i :| 0 <= i < |devices| && devices[i].device.sysName == k && i < n {
        assert devices[..n][i].device.sysName == k;
      }
    }
  }

  // ----- a whole observation -----

  /** What the log of an observation tells of USB devices. */
  ghost predicate UsbTold(cfg: Config, w: World, log': seq<Action>, keys: set<string>, arrivals: seq<string>) {
    && w.log <= log'
    && (forall i :: |w.log| <= i < |log'| ==> log'[i].UsbConnected? || Told(cfg, w, keys, log'[i]))
    && (forall k :: Times(w.log, log', UsbConnected(k)) == if k in w.observedUsb then 0 else multiset(arrivals)[k])
  }

  /** The USB half of an observation. */
  ghost predicate UsbObserved(cfg: Config, w: World, s: (World, Outcome), scanned: map<string, UsbDevice>,
                              arrivals: seq<string>, order: seq<string>)
  {
    var keys := Departed(w, order, scanned);
    && UsbTold(cfg, w, s.0.log, keys, arrivals)
    && s.0.pciVms == w.pciVms && s.0.observedPci == w.observedPci && s.0.deferred == w.deferred
    && (if s.1.Done? then
          && s.0.observedUsb == scanned
          && OnlyReturned(cfg, w, s.0, keys) && OffRecord(w, s.0, keys)
          && forall k :: Times(w.log, s.0.log, UsbDisconnected(k)) == if k in keys then multiset(order)[k] else 0
        else s.0.observedUsb == w.observedUsb)
  }

  /** An observation announces each device that was not there before, and each
      that is not there any more once it is forgotten; what was seen is then
      remembered, unless something failed. */
  lemma ObserveUsbSettles(cfg: Config, w: World, scanned: map<string, UsbDevice>, arrivals: seq<string>,
                          order: seq<string>, fs: string -> ForgetFaults)
    ensures UsbObserved(cfg, w, ObserveUsb(cfg, w, scanned, arrivals, order, fs), scanned, arrivals, order)
  {
    var news := Newcomers(w.observedUsb, arrivals);
    var announced := w.(log := w.log + news);
    NewcomersOnce(w.observedUsb, arrivals);
    ForgetAllSettles(cfg, announced, order, scanned, fs);
    SameDeparted(w, announced, order, scanned);
    AfterNews(cfg, w, news, ForgetAllGone(cfg, announced, order, scanned, fs), scanned, arrivals, order);
  }

  lemma AfterNews(cfg: Config, w: World, news: seq<Action>, s: (World, Outcome), scanned: map<string, UsbDevice>,
                  arrivals: seq<string>, order: seq<string>)
    requires forall a :: a in news ==> a.UsbConnected?
    requires forall k :: multiset(news)[UsbConnected(k)] == if k in w.observedUsb then 0 else multiset(arrivals)[k]
    requires AllForgotten(cfg, w.(log := w.log + news), s, Departed(w, order, scanned), order)
    ensures UsbObserved(cfg, w, if s.1.Failed? then s else (s.0.(observedUsb := scanned), Done), scanned, arrivals,
                        order)
  {
    var keys := Departed(w, order, scanned);
    LogAfterNews(cfg, w, news, s.0, keys, arrivals);
    if s.1.Done? {
      ForgottenBefore(cfg, w, w.(log := w.log + news), s.0, s.0.(observedUsb := scanned), keys);
    }
  }

  /** The log is no matter, and neither is what is observed then. */
  lemma ForgottenBefore(cfg: Config, w: World, announced: World, s: World, s': World, keys: set<string>)
    requires announced == w.(log := announced.log) && s' == s.(observedUsb := s'.observedUsb)
    requires OnlyReturned(cfg, announced, s, keys) && OffRecord(announced, s, keys)
    ensures OnlyReturned(cfg, w, s', keys) && OffRecord(w, s', keys)
  {
    ReturnedBefore(cfg, w, announced, keys);
    forall k | k in w.guests ensures Left(cfg, w, w.guests[k], s'.guests[k], keys, k) {
      assert Left(cfg, announced, w.guests[k], s.guests[k], keys, k);
    }
  }

  lemma ReturnedBefore(cfg: Config, w: World, announced: World, keys: set<string>)
    requires announced == w.(log := announced.log)
    ensures forall k, p: nat :: Returned(cfg, announced, keys, k, p) == Returned(cfg, w, keys, k, p)
  {
  }

  lemma LogAfterNews(cfg: Config, w: World, news: seq<Action>, w': World, keys: set<string>, arrivals: seq<string>)
    requires forall a :: a in news ==> a.UsbConnected?
    requires Tells(cfg, w.(log := w.log + news), w', keys)
    requires forall k :: multiset(news)[UsbConnected(k)] == if k in w.observedUsb then 0 else multiset(arrivals)[k]
    ensures UsbTold(cfg, w, w'.log, keys, arrivals)
    ensures forall k :: Times(w.log, w'.log, UsbDisconnected(k)) == Times(w.log + news, w'.log, UsbDisconnected(k))
  {
    var announced := w.(log := w.log + news);
    TimesAdd(w.log, announced.log, w'.log);
    TimesOf(w.log, news);
    ReturnedBefore(cfg, w, announced, keys);
    forall i | |w.log| <= i < |w'.log| ensures w'.log[i].UsbConnected? || Told(cfg, w, keys, w'.log[i]) {
      if i < |announced.log| {
        assert w'.log[i] == announced.log[i] && announced.log[i] == news[i - |w.log|];
      } else {
        assert Told(cfg, announced, keys, w'.log[i]);
      }
    }
    MembersTold(cfg, announced, w', keys);
    assert forall k :: !Told(cfg, announced, keys, UsbConnected(k));
    assert forall k :: UsbDisconnected(k) !in news;
  }

  lemma MembersTold(cfg: Config, w: World, w': World, keys: set<string>)
    requires Tells(cfg, w, w', keys)
    ensures forall action :: Times(w.log, w'.log, action) > 0 ==> Told(cfg, w, keys, action)
  {
    var more := w'.log[|w.log|..];
    assert forall i :: 0 <= i < |more| ==> more[i] == w'.log[|w.log| + i];
    assert forall action :: Times(w.log, w'.log, action) > 0 ==> action in more;
  }

  /** The PCI half: functions that are not there any more lose their holder. */
  ghost predicate PciObserved(w: World, w': World, devices: seq<PciRules.Routed>, order: seq<string>) {
    && w.log <= w'.log
    && (forall a :: a in w'.observedPci <==> a in AddressesOf(devices))
    && (forall a :: Get(w'.pciVms, a) ==
          if a in w.observedPci && a !in AddressesOf(devices) then None else Get(w.pciVms, a))
    && (forall a :: Times(w.log, w'.log, PciConnected(a)) ==
                    if a in w.observedPci then 0 else multiset(AddressesOf(devices))[a])
    && (forall a :: Times(w.log, w'.log, PciDisconnected(a)) ==
                    if a in AddressesOf(devices) then 0 else multiset(order)[a])
    && (forall i :: |w.log| <= i < |w'.log| ==> w'.log[i].PciConnected? || w'.log[i].PciDisconnected?)
    && w' == w.(pciVms := w'.pciVms, observedPci := w'.observedPci, log := w'.log)
  }

  lemma ObservePciSettles(w: World, devices: seq<PciRules.Routed>, order: seq<string>)
    ensures PciObserved(w, PciSpec.ObservePci(w, Addresses(devices), PciNews(w.observedPci, devices),
                                              PciGone(order, Addresses(devices))), devices, order)
  {
    var news, gone := PciNews(w.observedPci, devices), PciGone(order, Addresses(devices));
    var w' := PciSpec.ObservePci(w, Addresses(devices), news, gone);
    AddressesAre(devices);
    PciNewsOnce(w.observedPci, devices);
    PciGoneOnce(order, Addresses(devices));
    assert w'.log == w.log + (news + gone);
    NewsThenGone(w.log, news, gone);
    HoldersKept(w.pciVms, w.observedPci, Addresses(devices));
  }

  lemma HoldersKept(pciVms: map<string, string>, observed: set<string>, scanned: set<string>)
    ensures forall a :: Get(pciVms - (observed - scanned), a) ==
                        if a in observed && a !in scanned then None else Get(pciVms, a)
  {
  }

  lemma NewsThenGone(log: seq<Action>, news: seq<Action>, gone: seq<Action>)
    requires (forall a :: a in news ==> a.PciConnected?) && (forall a :: a in gone ==> a.PciDisconnected?)
    ensures var log' := log + (news + gone);
      && (forall a :: Times(log, log', PciConnected(a)) == multiset(news)[PciConnected(a)])
      && (forall a :: Times(log, log', PciDisconnected(a)) == multiset(gone)[PciDisconnected(a)])
      && (forall i :: |log| <= i < |log'| ==> log'[i].PciConnected? || log'[i].PciDisconnected?)
  {
    var log' := log + (news + gone);
    TimesOf(log, news + gone);
    assert forall a :: PciConnected(a) !in gone && PciDisconnected(a) !in news;
    forall i | |log| <= i < |log'| ensures log'[i].PciConnected? || log'[i].PciDisconnected? {
      assert log'[i] == (news + gone)[i - |log|];
    }
  }

  lemma AddressesAre(devices: seq<PciRules.Routed>)
    ensures forall a :: a in Addresses(devices) <==> a in AddressesOf(devices)
  {
    forall a | a in Addresses(devices) ensures a in AddressesOf(devices) {
      var x :| x in devices && x.device.address == a;
      var i :| 0 <= i < |devices| && devices[i] == x;
      assert AddressesOf(devices)[i] == a;
    }
    forall a | a in AddressesOf(devices) ensures a in Addresses(devices) {
      var i :| 0 <= i < |devices| && AddressesOf(devices)[i] == a;
      assert devices[i] in devices;
    }
  }

  /** An observation whose scan fails changes nothing; one that fails over USB
      does not get to PCI; and one that succeeds has seen to both. */
  lemma ObservationStages(cfg: Config, w: World, p: Pass, pciOrder: seq<string>)
    ensures var s := ObserveAll(cfg, w, p, pciOrder);
      if p.observeFails then s == (w, Failed(ScanFailed))
      else
        exists s1 ::
          && UsbObserved(cfg, w, s1, ScanMap(p.usb), p.arrivals, p.order)
          && s1.1 == s.1 && (s1.1.Failed? ==> s1.0 == s.0)
          && (s1.1.Done? ==> PciObserved(s1.0, s.0, p.pci, pciOrder))
  {
    if !p.observeFails {
      var s1 := ObserveUsb(cfg, w, ScanMap(p.usb), p.arrivals, p.order, p.forget);
      ObserveUsbSettles(cfg, w, ScanMap(p.usb), p.arrivals, p.order, p.forget);
      ObservePciSettles(s1.0, p.pci, pciOrder);
    }
  }
}
