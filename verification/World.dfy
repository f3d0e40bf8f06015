/**
 The values the device manager works on: devices and rules, its own records,
 and the host and virtual machines around it.
 */
module World {
  import opened Prelude
  import opened Crosvm

  /** `hub` is what is_hub() says of the scanned classes. */
  datatype UsbDevice = UsbDevice(
    sysName: string,
    node: Option<string>,
    vid: Option<string>,
    pid: Option<string>,
    serial: Option<string>,
    hub: bool)

  function OrNone(text: Option<string>): string {
    if text.Some? then text.value else "None"
  }

  function PersistentId(d: UsbDevice): string {
    "usb-" + OrNone(d.vid) + ":" + OrNone(d.pid) + ":" + OrNone(d.serial)
  }

  function PciPersistentId(address: string): string {
    "pci-" + address
  }

  datatype UsbRule = UsbRule(targetVm: Option<string>, allowedVms: seq<string>, skipOnSuspend: bool)

  function AllowedVms(rule: UsbRule): seq<string> {
    (if rule.targetVm.Some? then [rule.targetVm.value] else []) + rule.allowedVms
  }

  /** A scanned device with the rule that routes it. */
  datatype RoutedUsb = RoutedUsb(device: UsbDevice, rule: UsbRule)

  datatype Binding = Binding(
    vm: string,
    port: nat,
    generation: nat,
    vid: Option<string>,
    pid: Option<string>,
    serial: Option<string>)

  datatype Persistent = Persistent(
    selected: map<string, string>,
    disconnected: seq<string>,
    ports: map<string, Binding>)

  const DEFAULT_PERSISTENT: Persistent := Persistent(map[], [], map[])

  /** A control socket and what answers on it. A socket can outlive its VM;
      its generation identifies the socket file. */
  datatype Guest =
    | NoSocket
    | Stale(generation: nat)
    | Live(generation: nat, ports: map<nat, Ident>, vfio: set<string>)

  datatype Driver = Usbfs | HubDriver | HostDriver(name: string)

  /** The sysfs attributes the manager reads and writes; a missing key is a
      missing attribute or an unbound driver. */
  datatype Host = Host(
    authorized: map<string, bool>,
    drivers: map<string, Driver>,
    pciDrivers: map<string, string>)

  /** Everything visible from outside: commands issued and notifications sent.
      An attach records the drivers bound to the claimed interfaces at that moment. */
  datatype Action =
    | UsbAttachCommand(socket: string, node: string, drivers: seq<Option<Driver>>)
    | UsbDetachCommand(socket: string, port: nat)
    | VfioAddCommand(socket: string, address: string)
    | VfioRemoveCommand(socket: string, address: string)
    | BindVfio(address: string)
    | UsbSelectVm(sysName: string)
    | UsbAttached(sysName: string, vm: string)
    | UsbDetached(node: string, vm: string)
    | UsbConnected(sysName: string)
    | UsbDisconnected(sysName: string)
    | PciAttached(address: string, vm: string)
    | PciDetached(address: string, vm: string)
    | PciConnected(address: string)
    | PciDisconnected(address: string)

  /** What the gate asks of the kernel through sysfs. */
  datatype GateAction = Probe(name: string) | Release(name: string)

  datatype World = World(
    persistent: Persistent,
    disk: Persistent,
    usbVms: map<string, string>,
    pciVms: map<string, string>,
    pending: set<string>,
    observedUsb: map<string, UsbDevice>,
    observedPci: set<string>,
    reportedHubs: set<string>,
    deferred: bool,
    usbRouting: map<string, bool>,
    guests: map<string, Guest>,
    host: Host,
    log: seq<Action>,
    gateLog: seq<GateAction>)

  /** The parts of the configuration that do not change while the daemon runs. */
  datatype Config = Config(
    sockets: map<string, string>,
    authorization: bool,
    persistency: bool,
    hasBus: bool)

  datatype Failure =
    | NotAllowed
    | UnknownVm
    | SocketAbsent
    | CrosvmFailed
    | NoDeviceNode
    | AuthorizeFailed
    | ProbeFailed
    | ClaimFailed
    | DifferentDevice
    | AmbiguousDetach
    | SaveFailed
    | GroupUnreadable
    | GroupShared
    | BindFailed
    | ScanFailed

  datatype Outcome = Done | Failed(error: Failure)

  function GuestIn(guests: map<string, Guest>, socket: string): Guest {
    if socket in guests then guests[socket] else NoSocket
  }

  function GuestAt(w: World, socket: string): Guest {
    GuestIn(w.guests, socket)
  }

  /** Crosvm's port listing: only a live VM answers, and even then it may fail. */
  function Listing(guest: Guest, fails: bool): Option<map<nat, Ident>> {
    if guest.Live? && !fails then Some(guest.ports) else None
  }

  predicate VmStopped(cfg: Config, w: World, vm: Option<string>) {
    vm.Some? && vm.value in cfg.sockets && GuestAt(w, cfg.sockets[vm.value]).NoSocket?
  }

  predicate Shows(ident: Ident, vid: Option<string>, pid: Option<string>) {
    Some(ident.vid) == vid && Some(ident.pid) == pid
  }

  function Log(w: World, action: Action): World {
    w.(log := w.log + [action])
  }

  function WithDrivers(w: World, drivers: map<string, Driver>): World {
    w.(host := w.host.(drivers := drivers))
  }

  /** Writes the authorized attribute where it exists. */
  function WithAuthorized(w: World, sysName: string, value: bool, fails: bool): World {
    if sysName in w.host.authorized && !fails
    then w.(host := w.host.(authorized := w.host.authorized[sysName := value]))
    else w
  }

  function WithPorts(w: World, socket: string, ports: map<nat, Ident>): World
    requires GuestAt(w, socket).Live?
  {
    w.(guests := w.guests[socket := w.guests[socket].(ports := ports)])
  }

  /** One save of the persistent state: all of it, or nothing. */
  function Saved(cfg: Config, w: World, fails: bool): World {
    if cfg.persistency && !fails then w.(disk := w.persistent) else w
  }

  predicate SaveFails(cfg: Config, fails: bool) {
    cfg.persistency && fails
  }

  /** What a restarted daemon knows: the saved state and nothing from memory. */
  function Restarted(cfg: Config, w: World): World {
    w.(persistent := if cfg.persistency then w.disk else DEFAULT_PERSISTENT,
       usbVms := map[],
       pciVms := map[],
       pending := {},
       observedUsb := map[],
       observedPci := {},
       reportedHubs := {},
       deferred := false,
       usbRouting := map[])
  }

  // ----- when persistent ids identify devices -----

  predicate ColonFree(s: string) {
    forall i :: 0 <= i < |s| ==> s[i] != ':'
  }

  lemma SplitAtColon(a: string, b: string, c: string, d: string)
    requires ColonFree(a) && ColonFree(c) && a + ":" + b == c + ":" + d
    ensures a == c && b == d
  {
    var s := a + ":" + b;
    assert s[|a|] == ':' && (c + ":" + d)[|c|] == ':';
    assert forall i :: 0 <= i < |a| ==> s[i] == a[i];
    assert forall i :: 0 <= i < |c| ==> (c + ":" + d)[i] == c[i];
    assert s[..|a|] == a && (c + ":" + d)[..|c|] == c;
    assert s[|a| + 1..] == b && (c + ":" + d)[|c| + 1..] == d;
  }

  /** Two devices share an id exactly when their vendor, product and serial
      read the same, a missing one reading as the word None. */
  lemma PersistentIdIdentifies(x: UsbDevice, y: UsbDevice)
    requires ColonFree(OrNone(x.vid)) && ColonFree(OrNone(x.pid))
    requires ColonFree(OrNone(y.vid)) && ColonFree(OrNone(y.pid))
    ensures PersistentId(x) == PersistentId(y) <==>
              OrNone(x.vid) == OrNone(y.vid) && OrNone(x.pid) == OrNone(y.pid) && OrNone(x.serial) == OrNone(y.serial)
  {
    if PersistentId(x) == PersistentId(y) {
      IdShape(x);
      IdShape(y);
      var vendorX, vendorY := "usb-" + OrNone(x.vid), "usb-" + OrNone(y.vid);
      SplitAtColon(vendorX, OrNone(x.pid) + ":" + OrNone(x.serial), vendorY, OrNone(y.pid) + ":" + OrNone(y.serial));
      SplitAtColon(OrNone(x.pid), OrNone(x.serial), OrNone(y.pid), OrNone(y.serial));
      assert vendorX[4..] == OrNone(x.vid) && vendorY[4..] == OrNone(y.vid);
    }
  }

  lemma IdShape(d: UsbDevice)
    ensures PersistentId(d) == ("usb-" + OrNone(d.vid)) + ":" + (OrNone(d.pid) + ":" + OrNone(d.serial))
  {
  }

  /** USB and PCI marks never collide in the shared list. */
  lemma UsbAndPciIdsDiffer(d: UsbDevice, address: string)
    ensures PersistentId(d) != PciPersistentId(address)
  {
    assert PersistentId(d)[0] == 'u' && PciPersistentId(address)[0] == 'p';
  }
}
