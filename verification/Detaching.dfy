/**
 What a detach does, told from outside: which port it takes back, when it
 refuses, and what it leaves to everybody else.
 */
module Detaching {
  import opened Prelude
  import opened World
  import opened UsbSpec
  import opened Frames
  import Marks

  /** The record is of this very socket. */
  ghost predicate OnRecord(guest: Guest, binding: Option<Binding>) {
    binding.Some? && !guest.NoSocket? && binding.value.generation == guest.generation
  }

  /** A port the device may be taken back from: it shows the device, and it is
      the recorded one if there is a record of this socket. */
  ghost predicate Candidate(guest: Guest, binding: Option<Binding>, d: UsbDevice, p: nat) {
    guest.Live? && p in guest.ports && Shows(guest.ports[p], d.vid, d.pid)
        && (OnRecord(guest, binding) ==> p == binding.value.port)
  }

  /** Another device is at the recorded port. */
  ghost predicate Replaced(guest: Guest, binding: Option<Binding>, d: UsbDevice) {
    guest.Live? && OnRecord(guest, binding) && binding.value.port in guest.ports
        && !Shows(guest.ports[binding.value.port], d.vid, d.pid)
  }

  ghost predicate Ambiguous(guest: Guest, binding: Option<Binding>, d: UsbDevice) {
    exists p, q :: p != q && Candidate(guest, binding, d, p) && Candidate(guest, binding, d, q)
  }

  /** What is wrong with a release, if anything. */
  ghost predicate ReleaseError(guest: Guest, binding: Option<Binding>, d: UsbDevice, f: DetachFaults, error: Failure) {
    match error
    case DifferentDevice => !f.listFails && Replaced(guest, binding, d)
    case AmbiguousDetach => !f.listFails && Ambiguous(guest, binding, d)
    case CrosvmFailed =>
      || guest.Stale? || (guest.Live? && f.listFails)
      || (&& guest.Live? && f.detachFails && !Ambiguous(guest, binding, d)
          && exists p :: Candidate(guest, binding, d, p))
    case _ => false
  }

  /** The one candidate is gone from the VM, and nothing else. */
  ghost predicate CandidateGone(guest: Guest, guest': Guest, binding: Option<Binding>, d: UsbDevice) {
    if guest.Live? then
      && guest'.Live? && guest'.generation == guest.generation && guest'.vfio == guest.vfio
      && (forall p :: p in guest'.ports ==> p in guest.ports && guest'.ports[p] == guest.ports[p])
      && (forall p :: p in guest.ports ==> (p !in guest'.ports <==> Candidate(guest, binding, d, p)))
    else guest' == guest
  }

  lemma MatchingIsCandidates(guest: Guest, binding: Option<Binding>, d: UsbDevice)
    requires guest.Live? && !OnRecord(guest, binding)
    ensures forall p :: p in Matching(guest.ports, d) <==> Candidate(guest, binding, d, p)
    ensures |Matching(guest.ports, d)| > 1 <==> Ambiguous(guest, binding, d)
    ensures |Matching(guest.ports, d)| == 1 ==> Candidate(guest, binding, d, The(Matching(guest.ports, d)))
  {
    var matching := Matching(guest.ports, d);
    if |matching| > 1 {
      var p := The(matching);
      assert |matching - {p}| > 0;
      var q := The(matching - {p});
      assert p != q && Candidate(guest, binding, d, p) && Candidate(guest, binding, d, q);
    }
    if p, q :| p != q && Candidate(guest, binding, d, p) && Candidate(guest, binding, d, q) {
      assert {p, q} <= matching;
      assert |matching - {p, q}| + |{p, q}| == |matching|;
    }
  }

  lemma ChosenIsTheCandidate(guest: Guest, binding: Option<Binding>, d: UsbDevice)
    requires guest.Live?
    ensures var release := PortToRelease(guest.ports, guest.generation, binding, d);
      match release
      case Err(error) =>
        if error == DifferentDevice then Replaced(guest, binding, d)
        else error == AmbiguousDetach && Ambiguous(guest, binding, d)
      case Ok(chosen) =>
        && !Replaced(guest, binding, d) && !Ambiguous(guest, binding, d)
        && forall p: nat :: Candidate(guest, binding, d, p) <==> chosen == Some(p)
  {
    if !OnRecord(guest, binding) {
      MatchingIsCandidates(guest, binding, d);
    }
  }

  /** The detach command that goes with it. */
  ghost predicate AsksFor(guest: Guest, binding: Option<Binding>, d: UsbDevice, socket: string, log: seq<Action>,
                          log': seq<Action>)
  {
    if log' == log then forall p: nat :: !Candidate(guest, binding, d, p)
    else exists p: nat :: Candidate(guest, binding, d, p) && log' == log + [UsbDetachCommand(socket, p)]
  }

  /** A release fails for one of these reasons and then changes nothing;
      otherwise it takes the candidate from the VM, if there is one. */
  lemma ReleaseSettles(w: World, socket: string, binding: Option<Binding>, d: UsbDevice, f: DetachFaults)
    ensures var (w1, error) := ReleaseFromVm(w, socket, binding, d, f);
      && w1 == w.(guests := w1.guests, log := w1.log)
      && (forall k :: k != socket ==> GuestAt(w1, k) == GuestAt(w, k))
      && (forall e :: error == Some(e) <==> ReleaseError(GuestAt(w, socket), binding, d, f, e))
      && (error.None? ==>
            && CandidateGone(GuestAt(w, socket), GuestAt(w1, socket), binding, d)
            && AsksFor(GuestAt(w, socket), binding, d, socket, w.log, w1.log))
      && (error.Some? ==> w1.guests == w.guests)
  {
    var guest := GuestAt(w, socket);
    if guest.Live? && !f.listFails {
      ChosenIsTheCandidate(guest, binding, d);
      var release := PortToRelease(guest.ports, guest.generation, binding, d);
      if release.Ok? && release.value.Some? {
        TakesTheCandidate(w, socket, binding, d, release.value.value, f);
      }
    }
  }

  lemma TakesTheCandidate(w: World, socket: string, binding: Option<Binding>, d: UsbDevice, port: nat,
                          f: DetachFaults)
    requires GuestAt(w, socket).Live?
    requires forall p: nat :: Candidate(GuestAt(w, socket), binding, d, p) <==> p == port
    ensures var (w1, error) := DetachPort(w, socket, port, f.detachFails);
      && w1 == w.(guests := w1.guests, log := w1.log)
      && (forall k :: k != socket ==> GuestAt(w1, k) == GuestAt(w, k))
      && error == (if f.detachFails then Some(CrosvmFailed) else None)
      && (error.None? ==>
            && CandidateGone(GuestAt(w, socket), GuestAt(w1, socket), binding, d)
            && AsksFor(GuestAt(w, socket), binding, d, socket, w.log, w1.log))
      && (error.Some? ==> w1.guests == w.guests)
  {
  }

  // ----- a whole detach -----

  /** The VM the device is taken from: the remembered holder, else the one on record. */
  ghost predicate TakenFrom(w: World, d: UsbDevice, vm: string) {
    d.node.Some? &&
    if d.node.value in w.usbVms then w.usbVms[d.node.value] == vm
    else d.sysName in w.persistent.ports && w.persistent.ports[d.sysName].vm == vm
  }

  ghost predicate MarkIs(w: World, w': World, d: UsbDevice, marked: bool) {
    var id := PersistentId(d);
    && (id in w'.persistent.disconnected <==> marked)
    && OtherMarks(w'.persistent.disconnected, id) == OtherMarks(w.persistent.disconnected, id)
  }

  /** The records once the device is gone: nobody holds it, its mark is set if
      and only if the detach is permanent, and it is authorized no more. */
  ghost predicate RecordsGone(cfg: Config, w: World, w': World, d: UsbDevice, permanent: bool, f: DetachFaults)
    requires d.node.Some?
  {
    && w'.usbVms == Without(w.usbVms, d.node.value)
    && w'.pending == w.pending - {PersistentId(d)}
    && w'.persistent.ports == Without(w.persistent.ports, d.sysName)
    && w'.persistent.selected == w.persistent.selected
    && MarkIs(w, w', d, permanent)
    && w'.disk == (if cfg.persistency && !f.saveMarkFails then w'.persistent else w.disk)
    && BitGone(cfg, w, w', d, f)
  }

  /** A device that is no hub is not authorized any more, where that is enforced. */
  ghost predicate BitGone(cfg: Config, w: World, w': World, d: UsbDevice, f: DetachFaults) {
    && w'.host == w.host.(authorized := w'.host.authorized)
    && Elsewhere(w.host.authorized, w'.host.authorized, d.sysName)
    && (if cfg.authorization && !d.hub && !f.deauthorizeFails && d.sysName in w.host.authorized
        then Get(w'.host.authorized, d.sysName) == Some(false) else w'.host == w.host)
  }

  /** Nothing but ports, records and the device's authorization differs. */
  ghost predicate OnlyDetached(w: World, w': World) {
    w' == w.(guests := w'.guests, usbVms := w'.usbVms, pending := w'.pending, persistent := w'.persistent,
             disk := w'.disk, host := w.host.(authorized := w'.host.authorized), log := w'.log)
  }

  lemma FinishSettles(cfg: Config, w: World, d: UsbDevice, node: string, permanent: bool, f: DetachFaults)
    requires d.node == Some(node)
    ensures var (w', outcome) := FinishDetach(cfg, w, d, node, permanent, f);
      && RecordsGone(cfg, w, w', d, permanent, f) && OnlyDetached(w, w')
      && w'.guests == w.guests && w'.log == w.log
      && outcome == if cfg.persistency && (f.saveMarkFails || f.saveFails) then Failed(SaveFailed) else Done
  {
    FinishDetachShape(cfg, w, d, node, permanent, f);
    ForgetMarks(w, d, node, permanent);
    FinishHost(cfg, w, d, node, permanent, f);
  }

  lemma FinishHost(cfg: Config, w: World, d: UsbDevice, node: string, permanent: bool, f: DetachFaults)
    ensures var w' := FinishDetach(cfg, w, d, node, permanent, f).0;
      && BitGone(cfg, w, w', d, f) && w' == w.(usbVms := w'.usbVms, pending := w.pending - {PersistentId(d)},
             persistent := w'.persistent, disk := w'.disk, host := w'.host)
      && w'.disk == (if cfg.persistency && !f.saveMarkFails then w'.persistent else w.disk)
  {
    UpdateElsewhere(w.host.authorized, d.sysName, false);
  }

  lemma ForgetMarks(w: World, d: UsbDevice, node: string, permanent: bool)
    ensures MarkIs(w, Forget(w, d, node, permanent), d, permanent)
  {
    Marks.SetDisconnectedIsUpdate(w.persistent.disconnected, PersistentId(d), permanent);
    MarksFrame(w.persistent.disconnected, PersistentId(d), permanent);
  }

  /** Without a device node there is nothing to go by. */
  lemma NoNodeNoDetach(cfg: Config, w: World, d: UsbDevice, permanent: bool, f: DetachFaults)
    requires d.node.None?
    ensures DetachOne(cfg, w, d, permanent, f) == (w, Failed(NoDeviceNode))
  {
  }

  /** A device nobody holds has its records dropped; no VM hears of it. */
  lemma DetachOfFreeDevice(cfg: Config, w: World, d: UsbDevice, permanent: bool, f: DetachFaults)
    requires d.node.Some? && forall vm :: !TakenFrom(w, d, vm)
    ensures var (w', outcome) := DetachOne(cfg, w, d, permanent, f);
      && RecordsGone(cfg, w, w', d, permanent, f) && OnlyDetached(w, w')
      && w'.guests == w.guests && w'.log == w.log
      && outcome == if cfg.persistency && (f.saveMarkFails || f.saveFails) then Failed(SaveFailed) else Done
  {
    assert d.node.value in w.usbVms ==> TakenFrom(w, d, w.usbVms[d.node.value]);
    assert d.node.value !in w.usbVms && d.sysName in w.persistent.ports ==>
             TakenFrom(w, d, w.persistent.ports[d.sysName].vm);
    FinishSettles(cfg, w, d, d.node.value, permanent, f);
  }

  /** What is wrong before a record is touched. */
  ghost predicate DetachError(cfg: Config, w: World, d: UsbDevice, vm: string, f: DetachFaults, error: Failure) {
    if vm !in cfg.sockets then error == UnknownVm
    else ReleaseError(GuestAt(w, cfg.sockets[vm]), Get(w.persistent.ports, d.sysName), d, f, error)
  }

  /** The VM has lost the port of the device, no other VM has changed, and the
      detach is announced. */
  ghost predicate LeavesVm(cfg: Config, w: World, w': World, d: UsbDevice, vm: string)
    requires vm in cfg.sockets && d.node.Some?
  {
    var socket, binding := cfg.sockets[vm], Get(w.persistent.ports, d.sysName);
    && CandidateGone(GuestAt(w, socket), GuestAt(w', socket), binding, d)
    && (forall k :: k != socket ==> GuestAt(w', k) == GuestAt(w, k))
    && exists log :: AsksFor(GuestAt(w, socket), binding, d, socket, w.log, log)
                     && w'.log == log + [UsbDetached(d.node.value, vm)]
  }

  ghost predicate Detached(cfg: Config, w: World, s: (World, Outcome), d: UsbDevice, permanent: bool, f: DetachFaults,
                           vm: string)
    requires d.node.Some?
  {
    && vm in cfg.sockets && LeavesVm(cfg, w, s.0, d, vm)
    && RecordsGone(cfg, w, s.0, d, permanent, f) && OnlyDetached(w, s.0)
    && s.1 == if cfg.persistency && (f.saveMarkFails || f.saveFails) then Failed(SaveFailed) else Done
  }

  /** Where one of these errors applies, the detach reports it, and only the
      log may differ afterwards. */
  lemma DetachFails(cfg: Config, w: World, d: UsbDevice, permanent: bool, f: DetachFaults, vm: string, error: Failure)
    requires TakenFrom(w, d, vm) && DetachError(cfg, w, d, vm, f, error)
    ensures var (w', outcome) := DetachOne(cfg, w, d, permanent, f); outcome == Failed(error) && w' == w.(log := w'.log)
  {
    if vm in cfg.sockets {
      var socket, binding := cfg.sockets[vm], Get(w.persistent.ports, d.sysName);
      ReleaseSettles(w, socket, binding, d, f);
      var (w1, e) := ReleaseFromVm(w, socket, binding, d, f);
      DetachStages(cfg, w, d, permanent, f, vm, w1, e);
    }
  }

  /** Where none does, the VM it is taken from loses the port that is the
      device's, which is announced, and the records go. */
  lemma DetachSettles(cfg: Config, w: World, d: UsbDevice, permanent: bool, f: DetachFaults, vm: string)
    requires TakenFrom(w, d, vm) && forall e :: !DetachError(cfg, w, d, vm, f, e)
    ensures Detached(cfg, w, DetachOne(cfg, w, d, permanent, f), d, permanent, f, vm)
  {
    assert !DetachError(cfg, w, d, vm, f, UnknownVm);
    var socket, binding := cfg.sockets[vm], Get(w.persistent.ports, d.sysName);
    ReleaseSettles(w, socket, binding, d, f);
    var (w1, error) := ReleaseFromVm(w, socket, binding, d, f);
    assert error.None? by {
      assert error.Some? ==> DetachError(cfg, w, d, vm, f, error.value);
    }
    DetachStages(cfg, w, d, permanent, f, vm, w1, error);
    AfterRelease(cfg, w, w1, d, permanent, f, vm);
  }

  lemma DetachStages(cfg: Config, w: World, d: UsbDevice, permanent: bool, f: DetachFaults, vm: string, w1: World,
                     error: Option<Failure>)
    requires TakenFrom(w, d, vm) && vm in cfg.sockets
    requires ReleaseFromVm(w, cfg.sockets[vm], Get(w.persistent.ports, d.sysName), d, f) == (w1, error)
    ensures DetachOne(cfg, w, d, permanent, f) ==
              if error.Some? then (w1, Failed(error.value))
              else FinishDetach(cfg, Log(w1, UsbDetached(d.node.value, vm)), d, d.node.value, permanent, f)
  {
  }

  lemma AfterRelease(cfg: Config, w: World, w1: World, d: UsbDevice, permanent: bool, f: DetachFaults, vm: string)
    requires TakenFrom(w, d, vm) && vm in cfg.sockets && w1 == w.(guests := w1.guests, log := w1.log)
    requires var socket, binding := cfg.sockets[vm], Get(w.persistent.ports, d.sysName);
      && CandidateGone(GuestAt(w, socket), GuestAt(w1, socket), binding, d)
      && (forall k :: k != socket ==> GuestAt(w1, k) == GuestAt(w, k))
      && AsksFor(GuestAt(w, socket), binding, d, socket, w.log, w1.log)
    ensures Detached(cfg, w, FinishDetach(cfg, Log(w1, UsbDetached(d.node.value, vm)), d, d.node.value, permanent, f),
                     d, permanent, f, vm)
  {
    FinishSettles(cfg, Log(w1, UsbDetached(d.node.value, vm)), d, d.node.value, permanent, f);
  }
}
