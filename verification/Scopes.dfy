/**
 Passes over USB devices: whom a suspend takes a device from and whom it
 leaves alone, and which failures are reported and which put off.
 */
module Scopes {
  import opened Prelude
  import opened World
  import opened UsbSpec
  import opened Frames
  import opened SuspendResume
  import Attaching
  import Authorization
  import Detaching

  /** The VM remembered as holding the device. */
  ghost function Remembered(usbVms: map<string, string>, d: UsbDevice): Option<string> {
    Get(usbVms, if d.node.Some? then d.node.value else "")
  }

  /** A suspend is to take the device: a VM holds it, which is the one in scope
      if there is a scope, and its rule does not opt out. */
  ghost predicate Leaves(usbVms: map<string, string>, x: RoutedUsb, scope: Option<string>) {
    && !x.rule.skipOnSuspend && Remembered(usbVms, x.device).Some?
    && (scope.None? || scope == Remembered(usbVms, x.device))
  }

  /** A detach from this VM. */
  ghost predicate Removal(cfg: Config, vm: string, action: Action) {
    match action
    case UsbDetachCommand(socket, _) => Get(cfg.sockets, vm) == Some(socket)
    case UsbDetached(_, from) => from == vm
    case _ => false
  }

  /** A detach of one of these devices from the VM that held it. */
  ghost predicate RemovalOfDue(cfg: Config, usbVms: map<string, string>, devices: seq<RoutedUsb>,
                               scope: Option<string>, action: Action)
  {
    exists i :: 0 <= i < |devices| && Leaves(usbVms, devices[i], scope)
                && Removal(cfg, Remembered(usbVms, devices[i].device).value, action)
  }

  /** No device leaves a VM behind this socket. */
  ghost predicate Untouched(cfg: Config, usbVms: map<string, string>, devices: seq<RoutedUsb>, scope: Option<string>,
                            socket: string)
  {
    forall i :: 0 <= i < |devices| && Leaves(usbVms, devices[i], scope) ==>
                  Get(cfg.sockets, Remembered(usbVms, devices[i].device).value) != Some(socket)
  }

  /** Records of holders only get fewer. */
  ghost predicate FewerHeld(w: World, w': World) {
    forall node :: node in w'.usbVms ==> Get(w.usbVms, node) == Some(w'.usbVms[node])
  }

  lemma DetachTakesOnly(cfg: Config, w: World, d: UsbDevice, f: DetachFaults, vm: string)
    requires Remembered(w.usbVms, d) == Some(vm)
    ensures var w' := DetachOne(cfg, w, d, false, f).0;
      && w.log <= w'.log && FewerHeld(w, w')
      && (forall i :: |w.log| <= i < |w'.log| ==> Removal(cfg, vm, w'.log[i]))
      && (forall k :: Get(cfg.sockets, vm) != Some(k) ==> GuestAt(w', k) == GuestAt(w, k))
  {
    DetachLogs(cfg, w, d, f, vm);
    if d.node.Some? {
      DetachKeepsOthers(cfg, w, d, f, vm);
    }
  }

  lemma DetachLogs(cfg: Config, w: World, d: UsbDevice, f: DetachFaults, vm: string)
    requires Remembered(w.usbVms, d) == Some(vm)
    ensures var log' := DetachOne(cfg, w, d, false, f).0.log;
      w.log <= log' && forall i :: |w.log| <= i < |log'| ==> Removal(cfg, vm, log'[i])
  {
    var e, log' := Authorization.DetachErrand(cfg, w, d), DetachOne(cfg, w, d, false, f).0.log;
    Authorization.DetachFollows(cfg, w, d, false, f);
    Authorization.FollowsMeans(e, w.log, log');
    ErrandRemoves(cfg, w, d, vm);
  }

  lemma ErrandRemoves(cfg: Config, w: World, d: UsbDevice, vm: string)
    requires Remembered(w.usbVms, d) == Some(vm)
    ensures forall action :: Authorization.Fits(Authorization.DetachErrand(cfg, w, d), action) ==>
                               Removal(cfg, vm, action)
  {
  }

  lemma DetachKeepsOthers(cfg: Config, w: World, d: UsbDevice, f: DetachFaults, vm: string)
    requires d.node.Some? && Remembered(w.usbVms, d) == Some(vm)
    ensures var w' := DetachOne(cfg, w, d, false, f).0;
      FewerHeld(w, w') && forall k :: Get(cfg.sockets, vm) != Some(k) ==> GuestAt(w', k) == GuestAt(w, k)
  {
    if e :| Detaching.DetachError(cfg, w, d, vm, f, e) {
      Detaching.DetachFails(cfg, w, d, false, f, vm, e);
    } else {
      Detaching.DetachSettles(cfg, w, d, false, f, vm);
    }
  }

  lemma SuspendOneStaysInScope(cfg: Config, w: World, x: RoutedUsb, scope: Option<string>, f: DetachFaults)
    ensures var w' := SuspendOne(cfg, w, x, scope, f).0;
      if Leaves(w.usbVms, x, scope) then
        var vm := Remembered(w.usbVms, x.device).value;
        && w.log <= w'.log && FewerHeld(w, w')
        && (forall i :: |w.log| <= i < |w'.log| ==> Removal(cfg, vm, w'.log[i]))
        && (forall k :: Get(cfg.sockets, vm) != Some(k) ==> GuestAt(w', k) == GuestAt(w, k))
      else SuspendOne(cfg, w, x, scope, f) == (w, true)
  {
    if Leaves(w.usbVms, x, scope) {
      DetachTakesOnly(cfg, w, x.device, f, Remembered(w.usbVms, x.device).value);
    }
  }

  /** What is due later was due from the start. */
  lemma FewerLeave(w: World, w': World, x: RoutedUsb, scope: Option<string>)
    requires FewerHeld(w, w') && Leaves(w'.usbVms, x, scope)
    ensures Leaves(w.usbVms, x, scope) && Remembered(w.usbVms, x.device) == Remembered(w'.usbVms, x.device)
  {
  }

  /** A suspend detaches devices from the VMs that hold them, where their rules
      do not opt out and the VM is in scope; it issues no other command, and
      no other VM changes. */
  lemma {:induction false} SuspendStaysInScope(cfg: Config, w: World, devices: seq<RoutedUsb>, scope: Option<string>,
                                               fs: string -> DetachFaults)
    ensures var w' := SuspendUsb(cfg, w, devices, scope, fs).0;
      && w.log <= w'.log && FewerHeld(w, w')
      && (forall i :: |w.log| <= i < |w'.log| ==> RemovalOfDue(cfg, w.usbVms, devices, scope, w'.log[i]))
      && (forall k :: Untouched(cfg, w.usbVms, devices, scope, k) ==> GuestAt(w', k) == GuestAt(w, k))
  {
    if devices != [] {
      var n := |devices| - 1;
      SuspendStaysInScope(cfg, w, devices[..n], scope, fs);
      var w1, x := SuspendUsb(cfg, w, devices[..n], scope, fs).0, devices[n];
      SuspendOneStaysInScope(cfg, w1, x, scope, fs(x.device.sysName));
      if Leaves(w1.usbVms, x, scope) {
        FewerLeave(w, w1, x, scope);
      }
      OneMore(cfg, w, w1, SuspendOne(cfg, w1, x, scope, fs(x.device.sysName)).0, devices, scope);
    }
  }

  lemma OneMore(cfg: Config, w: World, w1: World, w2: World, devices: seq<RoutedUsb>, scope: Option<string>)
    requires devices != [] && w.log <= w1.log <= w2.log && FewerHeld(w, w1) && FewerHeld(w1, w2)
    requires var n := |devices| - 1;
      && (forall i :: |w.log| <= i < |w1.log| ==> RemovalOfDue(cfg, w.usbVms, devices[..n], scope, w1.log[i]))
      && (forall k :: Untouched(cfg, w.usbVms, devices[..n], scope, k) ==> GuestAt(w1, k) == GuestAt(w, k))
      && (w2 == w1
          || (&& Leaves(w.usbVms, devices[n], scope)
              && var vm := Remembered(w.usbVms, devices[n].device).value;
                 && (forall i :: |w1.log| <= i < |w2.log| ==> Removal(cfg, vm, w2.log[i]))
                 && (forall k :: Get(cfg.sockets, vm) != Some(k) ==> GuestAt(w2, k) == GuestAt(w1, k))))
    ensures w.log <= w2.log && FewerHeld(w, w2)
    ensures forall i :: |w.log| <= i < |w2.log| ==> RemovalOfDue(cfg, w.usbVms, devices, scope, w2.log[i])
    ensures forall k :: Untouched(cfg, w.usbVms, devices, scope, k) ==> GuestAt(w2, k) == GuestAt(w, k)
  {
    var n := |devices| - 1;
    forall i | |w.log| <= i < |w2.log| ensures RemovalOfDue(cfg, w.usbVms, devices, scope, w2.log[i]) {
      if i < |w1.log| {
        assert w2.log[i] == w1.log[i] && RemovalOfDue(cfg, w.usbVms, devices[..n], scope, w1.log[i]);
        var j :| 0 <= j < n && Leaves(w.usbVms, devices[..n][j], scope)
                 && Removal(cfg, Remembered(w.usbVms, devices[..n][j].device).value, w1.log[i]);
        assert devices[j] == devices[..n][j];
      }
    }
    forall k | Untouched(cfg, w.usbVms, devices, scope, k) ensures GuestAt(w2, k) == GuestAt(w, k) {
      assert Untouched(cfg, w.usbVms, devices[..n], scope, k) by {
        forall i | 0 <= i < n && Leaves(w.usbVms, devices[..n][i], scope)
          ensures Get(cfg.sockets, Remembered(w.usbVms, devices[..n][i].device).value) != Some(k)
        {
          assert devices[..n][i] == devices[i];
        }
      }
    }
  }

  /** Suspending one VM takes nothing from any other: every detach command goes
      to its socket, every notification names it, and the ports of all other
      VMs stay. */
  lemma SuspendOfOneVm(cfg: Config, w: World, devices: seq<RoutedUsb>, vm: string, fs: string -> DetachFaults)
    ensures var w' := SuspendUsb(cfg, w, devices, Some(vm), fs).0;
      && w.log <= w'.log
      && (forall i :: |w.log| <= i < |w'.log| ==> Removal(cfg, vm, w'.log[i]))
      && (forall k :: Get(cfg.sockets, vm) != Some(k) ==> GuestAt(w', k) == GuestAt(w, k))
  {
    var w' := SuspendUsb(cfg, w, devices, Some(vm), fs).0;
    SuspendStaysInScope(cfg, w, devices, Some(vm), fs);
    forall i | |w.log| <= i < |w'.log| ensures Removal(cfg, vm, w'.log[i]) {
      assert RemovalOfDue(cfg, w.usbVms, devices, Some(vm), w'.log[i]);
    }
    forall k | Get(cfg.sockets, vm) != Some(k) ensures GuestAt(w', k) == GuestAt(w, k) {
      assert Untouched(cfg, w.usbVms, devices, Some(vm), k);
    }
  }

  /** A scanned device held by another VM than the one in scope, or by none, or
      whose rule opts out, keeps everything the manager knows of it; one that
      is due is held by nobody after a suspend that succeeds, not marked, and
      still selected. */
  lemma SuspendViews(cfg: Config, w: World, devices: seq<RoutedUsb>, scope: Option<string>, fs: string -> DetachFaults,
                     i: nat)
    requires DistinctScan(devices) && i < |devices|
    ensures var x, d := devices[i], devices[i].device;
      var (w', ok) := SuspendUsb(cfg, w, devices, scope, fs);
      var v, v' := ViewOf(w, d), ViewOf(w', d);
      && (x.rule.skipOnSuspend || v.vm == None || (scope.Some? && v.vm != scope) ==> v' == v)
      && (ok && !x.rule.skipOnSuspend && v.vm.Some? && (scope.None? || v.vm == scope) ==>
            v' == View(None, v.selected, false, false, None))
  {
    var x, d := devices[i], devices[i].device;
    SuspendBefore(cfg, w, devices, i, scope, fs, i);
    var w1 := SuspendUsb(cfg, w, devices[..i], scope, fs).0;
    SuspendTurn(cfg, w, devices, i, scope, fs);
    SuspendAfter(cfg, w, devices, scope, fs, i);
    assert Remembered(w1.usbVms, d) == ViewOf(w1, d).vm;
    SuspendOneStaysInScope(cfg, w1, x, scope, fs(d.sysName));
    if Leaves(w1.usbVms, x, scope) && SuspendOne(cfg, w1, x, scope, fs(d.sysName)).1 {
      DetachedView(cfg, w1, d, fs(d.sysName), Remembered(w1.usbVms, d).value);
    }
  }

  lemma DetachedView(cfg: Config, w: World, d: UsbDevice, f: DetachFaults, vm: string)
    requires d.node.Some? && Remembered(w.usbVms, d) == Some(vm) && DetachOne(cfg, w, d, false, f).1.Done?
    ensures var w' := DetachOne(cfg, w, d, false, f).0;
      ViewOf(w', d) == View(None, ViewOf(w, d).selected, false, false, None)
  {
    if e :| Detaching.DetachError(cfg, w, d, vm, f, e) {
      Detaching.DetachFails(cfg, w, d, false, f, vm, e);
    } else {
      Detaching.DetachSettles(cfg, w, d, false, f, vm);
    }
  }

  /** In its turn the device is detached, or is not due. */
  ghost predicate GoesWell(cfg: Config, w: World, devices: seq<RoutedUsb>, scope: Option<string>,
                           fs: string -> DetachFaults, i: nat)
    requires i < |devices|
  {
    var w1, x := SuspendUsb(cfg, w, devices[..i], scope, fs).0, devices[i];
    Leaves(w1.usbVms, x, scope) ==> DetachOne(cfg, w1, x.device, false, fs(x.device.sysName)).1.Done?
  }

  /** A suspend fails if and only if the detach of a device it is to take failed. */
  lemma {:induction false} SuspendReports(cfg: Config, w: World, devices: seq<RoutedUsb>, scope: Option<string>,
                                          fs: string -> DetachFaults)
    ensures SuspendUsb(cfg, w, devices, scope, fs).1 <==>
              forall i :: 0 <= i < |devices| ==> GoesWell(cfg, w, devices, scope, fs, i)
  {
    if devices != [] {
      var n := |devices| - 1;
      SuspendReports(cfg, w, devices[..n], scope, fs);
      forall i | 0 <= i < n
        ensures GoesWell(cfg, w, devices[..n], scope, fs, i) == GoesWell(cfg, w, devices, scope, fs, i)
      {
        assert devices[..n][..i] == devices[..i];
      }
      var w1, x := SuspendUsb(cfg, w, devices[..n], scope, fs).0, devices[n];
      SuspendOneStaysInScope(cfg, w1, x, scope, fs(x.device.sysName));
      assert GoesWell(cfg, w, devices, scope, fs, n) <==> SuspendOne(cfg, w1, x, scope, fs(x.device.sysName)).1;
    }
  }

  // ----- resuming -----

  /** A resume sends the device to the VM its rule names, else to the one it
      was selected for. */
  ghost predicate MeantFor(w: World, x: RoutedUsb, vm: string) {
    || x.rule.targetVm == Some(vm)
    || (x.rule.targetVm == None && Get(w.persistent.selected, PersistentId(x.device)) == Some(vm))
  }

  ghost predicate IsMeant(w: World, x: RoutedUsb, requested: Option<string>) {
    match requested
    case Some(vm) => MeantFor(w, x, vm)
    case None => forall vm :: !MeantFor(w, x, vm)
  }

  lemma TargetIsMeant(w: World, x: RoutedUsb, requested: Option<string>)
    ensures IsMeant(w, x, requested) <==> requested == ResumeTarget(w, x)
  {
    assert ResumeTarget(w, x).Some? ==> MeantFor(w, x, ResumeTarget(w, x).value);
  }

  /** A resume is to attach the device: it is not marked, and the VM it is
      meant for is the one in scope if there is a scope. */
  ghost predicate Due(w: World, x: RoutedUsb, scope: Option<string>) {
    PersistentId(x.device) !in w.persistent.disconnected && (scope.None? || MeantFor(w, x, scope.value))
  }

  /** The socket of the VM the device is meant for is not there. */
  ghost predicate Gone(cfg: Config, w: World, x: RoutedUsb) {
    exists vm :: MeantFor(w, x, vm) && vm in cfg.sockets && GuestAt(w, cfg.sockets[vm]).NoSocket?
  }

  /** One turn fails if and only if the attach is refused though the socket of
      its VM is there; if the socket is not there it is put off, unless the
      device is found to be a hub. A device that is not due sees nothing of it. */
  lemma OneTurn(cfg: Config, w: World, x: RoutedUsb, scope: Option<string>, f: AttachFaults, requested: Option<string>)
    requires IsMeant(w, x, requested)
    ensures var (w', ok) := ResumeOne(cfg, w, x, scope, f);
      var (w1, result) := AttachOne(cfg, w, x.device, x.rule, requested, f);
      && (ok <==> (Due(w, x, scope) && !Gone(cfg, w, x) ==> !result.Rejected?))
      && (w'.deferred <==> w.deferred || (Due(w, x, scope) && Gone(cfg, w, x) && result != SkippedHub))
      && w' == (if Due(w, x, scope) then w1.(deferred := w'.deferred) else w)
  {
    TargetIsMeant(w, x, requested);
    var (w1, result) := AttachOne(cfg, w, x.device, x.rule, requested, f);
    AttachFrame(cfg, w, x.device, x.rule, requested, f);
    if requested.Some? && requested.value in cfg.sockets && GuestAt(w, cfg.sockets[requested.value]).NoSocket? {
      AbsentVmRefuses(cfg, w, x.device, x.rule, requested.value, f);
    }
    TurnStages(cfg, w, x, scope, f, requested, w1, result);
    TurnConcludes(cfg, w, x, scope, requested, w1, result);
  }

  /** A turn with its attach done. */
  ghost function Turned(cfg: Config, w: World, x: RoutedUsb, scope: Option<string>, requested: Option<string>,
                        w1: World, result: AttachResult): (World, bool)
  {
    if PersistentId(x.device) in w.persistent.disconnected || !(scope.None? || requested == scope) then (w, true)
    else if !result.Rejected? then (w1, true)
    else if VmStopped(cfg, w1, requested) then (w1.(deferred := true), true)
    else (w1, false)
  }

  lemma TurnStages(cfg: Config, w: World, x: RoutedUsb, scope: Option<string>, f: AttachFaults,
                   requested: Option<string>, w1: World, result: AttachResult)
    requires requested == ResumeTarget(w, x) && AttachOne(cfg, w, x.device, x.rule, requested, f) == (w1, result)
    ensures ResumeOne(cfg, w, x, scope, f) == Turned(cfg, w, x, scope, requested, w1, result)
  {
  }

  lemma TurnConcludes(cfg: Config, w: World, x: RoutedUsb, scope: Option<string>, requested: Option<string>, w1: World,
                      result: AttachResult)
    requires IsMeant(w, x, requested) && SameVms(w.guests, w1.guests) && w1.deferred == w.deferred
    requires VmStopped(cfg, w, requested) ==> result.Rejected? || result == SkippedHub
    ensures var (w', ok) := Turned(cfg, w, x, scope, requested, w1, result);
      && (ok <==> (Due(w, x, scope) && !Gone(cfg, w, x) ==> !result.Rejected?))
      && (w'.deferred <==> w.deferred || (Due(w, x, scope) && Gone(cfg, w, x) && result != SkippedHub))
      && w' == (if Due(w, x, scope) then w1.(deferred := w'.deferred) else w)
  {
    assert Gone(cfg, w, x) <==> VmStopped(cfg, w1, requested);
    assert (scope.None? || MeantFor(w, x, scope.value)) <==> (scope.None? || requested == scope);
  }

  /** No attach to a VM whose socket is not there succeeds. */
  lemma AbsentVmRefuses(cfg: Config, w: World, d: UsbDevice, rule: UsbRule, vm: string, f: AttachFaults)
    requires vm in cfg.sockets && GuestAt(w, cfg.sockets[vm]).NoSocket?
    ensures var result := AttachOne(cfg, w, d, rule, Some(vm), f).1; result.Rejected? || result == SkippedHub
  {
    if !Attaching.Reaches(cfg, w, d, vm, f) {
      Attaching.UnreachedChangesNothing(cfg, w, d, vm, f);
    } else if MustMove(w, d, vm) {
      DetachFrame(cfg, w, d, false, f.move);
      Attaching.MoveEnds(cfg, w, d, vm, f);
    } else {
      Attaching.AttachEnds(cfg, w, d, vm, f);
    }
  }

  /** How the device's turn in a resume ends. */
  ghost predicate TurnEnds(cfg: Config, w: World, devices: seq<RoutedUsb>, scope: Option<string>,
                           fs: string -> AttachFaults, i: nat, result: AttachResult)
    requires i < |devices|
  {
    var w1, x := ResumeUsb(cfg, w, devices[..i], scope, fs).0, devices[i];
    exists requested :: IsMeant(w, x, requested)
                        && AttachOne(cfg, w1, x.device, x.rule, requested, fs(x.device.sysName)).1 == result
  }

  ghost predicate TurnFails(cfg: Config, w: World, devices: seq<RoutedUsb>, scope: Option<string>,
                            fs: string -> AttachFaults, i: nat)
    requires i < |devices|
  {
    && Due(w, devices[i], scope) && !Gone(cfg, w, devices[i])
    && exists error :: TurnEnds(cfg, w, devices, scope, fs, i, Rejected(error))
  }

  ghost predicate TurnIsPutOff(cfg: Config, w: World, devices: seq<RoutedUsb>, scope: Option<string>,
                               fs: string -> AttachFaults, i: nat)
    requires i < |devices|
  {
    && Due(w, devices[i], scope) && Gone(cfg, w, devices[i])
    && !TurnEnds(cfg, w, devices, scope, fs, i, SkippedHub)
  }

  lemma SameViewSameTurn(cfg: Config, w: World, w1: World, x: RoutedUsb, scope: Option<string>)
    requires x.device.node.Some? && ViewOf(w1, x.device) == ViewOf(w, x.device) && SameVms(w.guests, w1.guests)
    ensures Due(w1, x, scope) == Due(w, x, scope) && Gone(cfg, w1, x) == Gone(cfg, w, x)
    ensures forall requested :: IsMeant(w1, x, requested) == IsMeant(w, x, requested)
  {
    var v := ViewOf(w, x.device);
    assert v.selected == Get(w.persistent.selected, PersistentId(x.device));
    assert forall vm :: MeantFor(w1, x, vm) == MeantFor(w, x, vm);
  }

  lemma {:induction false} ResumeKeepsVms(cfg: Config, w: World, devices: seq<RoutedUsb>, scope: Option<string>,
                                          fs: string -> AttachFaults)
    ensures SameVms(w.guests, ResumeUsb(cfg, w, devices, scope, fs).0.guests)
  {
    if devices != [] {
      var n := |devices| - 1;
      ResumeKeepsVms(cfg, w, devices[..n], scope, fs);
      ResumeOneFrame(cfg, ResumeUsb(cfg, w, devices[..n], scope, fs).0, devices[n], scope,
                     fs(devices[n].device.sysName));
    }
  }

  /** A resume fails if and only if the attach of a due device is refused by a
      VM whose socket is there: real errors are reported. */
  lemma {:induction false} ResumeFailsIff(cfg: Config, w: World, devices: seq<RoutedUsb>, n: nat, scope: Option<string>,
                                          fs: string -> AttachFaults)
    requires DistinctScan(devices) && n <= |devices|
    ensures ResumeUsb(cfg, w, devices[..n], scope, fs).1 <==>
              forall i :: 0 <= i < n ==> !TurnFails(cfg, w, devices, scope, fs, i)
  {
    if n == 0 {
      assert devices[..0] == [];
    } else {
      var m := n - 1;
      ResumeFailsIff(cfg, w, devices, m, scope, fs);
      ResumeTurn(cfg, w, devices, m, scope, fs);
      TurnTells(cfg, w, devices, m, scope, fs);
    }
  }

  /** A resume puts work off if and only if a due device is meant for a VM whose
      socket is not there, unless it is found to be a hub: a VM that is down is
      no error. */
  lemma {:induction false} ResumeDefersIff(cfg: Config, w: World, devices: seq<RoutedUsb>, n: nat,
                                           scope: Option<string>, fs: string -> AttachFaults)
    requires DistinctScan(devices) && n <= |devices|
    ensures ResumeUsb(cfg, w, devices[..n], scope, fs).0.deferred <==>
              w.deferred || exists i :: 0 <= i < n && TurnIsPutOff(cfg, w, devices, scope, fs, i)
  {
    if n == 0 {
      assert devices[..0] == [];
    } else {
      var m := n - 1;
      ResumeDefersIff(cfg, w, devices, m, scope, fs);
      ResumeTurn(cfg, w, devices, m, scope, fs);
      TurnTells(cfg, w, devices, m, scope, fs);
    }
  }

  lemma TurnTells(cfg: Config, w: World, devices: seq<RoutedUsb>, m: nat, scope: Option<string>,
                  fs: string -> AttachFaults)
    requires m < |devices| && DistinctScan(devices)
    ensures var w1 := ResumeUsb(cfg, w, devices[..m], scope, fs).0;
      var (w2, last) := ResumeOne(cfg, w1, devices[m], scope, fs(devices[m].device.sysName));
      && (last <==> !TurnFails(cfg, w, devices, scope, fs, m))
      && (w2.deferred <==> w1.deferred || TurnIsPutOff(cfg, w, devices, scope, fs, m))
  {
    var w1, x := ResumeUsb(cfg, w, devices[..m], scope, fs).0, devices[m];
    var f := fs(x.device.sysName);
    var requested := ResumeTarget(w1, x);
    ResumeBefore(cfg, w, devices, m, scope, fs, m);
    ResumeKeepsVms(cfg, w, devices[..m], scope, fs);
    SameViewSameTurn(cfg, w, w1, x, scope);
    TargetIsMeant(w1, x, requested);
    OneTurn(cfg, w1, x, scope, f, requested);
    var result := AttachOne(cfg, w1, x.device, x.rule, requested, f).1;
    TurnEndsOnce(cfg, w, devices, scope, fs, m, requested, result);
    EndTells(cfg, w, devices, m, scope, fs, result);
  }

  /** The one way a turn ends decides whether it fails or is put off. */
  lemma EndTells(cfg: Config, w: World, devices: seq<RoutedUsb>, m: nat, scope: Option<string>,
                 fs: string -> AttachFaults, result: AttachResult)
    requires m < |devices|
    requires forall r :: TurnEnds(cfg, w, devices, scope, fs, m, r) <==> r == result
    ensures TurnFails(cfg, w, devices, scope, fs, m) <==>
              Due(w, devices[m], scope) && !Gone(cfg, w, devices[m]) && result.Rejected?
    ensures TurnIsPutOff(cfg, w, devices, scope, fs, m) <==>
              Due(w, devices[m], scope) && Gone(cfg, w, devices[m]) && result != SkippedHub
  {
    if result.Rejected? {
      assert TurnEnds(cfg, w, devices, scope, fs, m, Rejected(result.error));
    }
  }

  lemma TurnEndsOnce(cfg: Config, w: World, devices: seq<RoutedUsb>, scope: Option<string>, fs: string -> AttachFaults,
                     i: nat, requested: Option<string>, result: AttachResult)
    requires i < |devices| && IsMeant(w, devices[i], requested)
    requires var w1, x := ResumeUsb(cfg, w, devices[..i], scope, fs).0, devices[i];
      AttachOne(cfg, w1, x.device, x.rule, requested, fs(x.device.sysName)).1 == result
    ensures forall r :: TurnEnds(cfg, w, devices, scope, fs, i, r) <==> r == result
  {
    forall r | IsMeant(w, devices[i], r) ensures r == requested {
      TargetIsMeant(w, devices[i], r);
      TargetIsMeant(w, devices[i], requested);
    }
  }

  // ----- no failure keeps another device from its turn -----

  /** Whatever failed before, a device that is due is attached in its turn, and
      the rest of the resume leaves what the manager knows of it. */
  lemma ResumeReachesAll(cfg: Config, w: World, devices: seq<RoutedUsb>, scope: Option<string>,
                         fs: string -> AttachFaults, i: nat, requested: Option<string>)
    requires DistinctScan(devices) && i < |devices| && IsMeant(w, devices[i], requested)
    ensures var x := devices[i];
      var before, after := ResumeUsb(cfg, w, devices[..i], scope, fs).0, ResumeUsb(cfg, w, devices, scope, fs).0;
      ViewOf(after, x.device) ==
        if Due(w, x, scope)
        then ViewOf(AttachOne(cfg, before, x.device, x.rule, requested, fs(x.device.sysName)).0, x.device)
        else ViewOf(w, x.device)
  {
    var x := devices[i];
    var before := ResumeUsb(cfg, w, devices[..i], scope, fs).0;
    ResumeBefore(cfg, w, devices, i, scope, fs, i);
    ResumeKeepsVms(cfg, w, devices[..i], scope, fs);
    SameViewSameTurn(cfg, w, before, x, scope);
    OneTurn(cfg, before, x, scope, fs(x.device.sysName), requested);
    ResumeTurn(cfg, w, devices, i, scope, fs);
    ResumeAfter(cfg, w, devices, scope, fs, i);
  }

  /** The same for a suspend. */
  lemma SuspendReachesAll(cfg: Config, w: World, devices: seq<RoutedUsb>, scope: Option<string>,
                          fs: string -> DetachFaults, i: nat)
    requires DistinctScan(devices) && i < |devices| && Leaves(w.usbVms, devices[i], scope)
    ensures var x := devices[i];
      var before, after := SuspendUsb(cfg, w, devices[..i], scope, fs).0, SuspendUsb(cfg, w, devices, scope, fs).0;
      ViewOf(after, x.device) ==
        ViewOf(DetachOne(cfg, before, x.device, false, fs(x.device.sysName)).0, x.device)
  {
    var x := devices[i];
    var before := SuspendUsb(cfg, w, devices[..i], scope, fs).0;
    SuspendBefore(cfg, w, devices, i, scope, fs, i);
    assert Remembered(before.usbVms, x.device) == ViewOf(before, x.device).vm;
    SuspendTurn(cfg, w, devices, i, scope, fs);
    SuspendAfter(cfg, w, devices, scope, fs, i);
  }
}
