/**
 Which VM a device goes to: only one its rule allows, the one that is asked
 for before the rule's own, and none that does not run.
 */
module Routing {
  import opened Prelude
  import opened World
  import opened UsbSpec
  import opened Frames
  import opened Authorization
  import Attaching
  import Detaching
  import Recording

  /** The rule names the VM as its target or among those allowed. */
  predicate MayHave(rule: UsbRule, vm: string) {
    rule.targetVm == Some(vm) || vm in rule.allowedVms
  }

  /** The VM an attach is for: the one requested; else the rule's target; else
      the one remembered for the device; else the only one allowed. */
  ghost predicate Wanted(w: World, d: UsbDevice, rule: UsbRule, requested: Option<string>, vm: string) {
    || requested == Some(vm)
    || (requested == None && rule.targetVm == Some(vm))
    || (requested == None && rule.targetVm == None && Get(w.persistent.selected, PersistentId(d)) == Some(vm))
    || (&& requested == None && rule.targetVm == None
        && PersistentId(d) !in w.persistent.selected && rule.allowedVms == [vm])
  }

  /** A VM that is wanted is refused if the rule does not allow it or nobody
      configured it, and then nothing changes. */
  lemma WantedIsChosen(cfg: Config, w: World, d: UsbDevice, rule: UsbRule, requested: Option<string>, f: AttachFaults,
                       vm: string)
    requires Wanted(w, d, rule, requested, vm)
    ensures !MayHave(rule, vm) ==> AttachOne(cfg, w, d, rule, requested, f) == (w, Rejected(NotAllowed))
    ensures MayHave(rule, vm) && vm !in cfg.sockets ==>
              AttachOne(cfg, w, d, rule, requested, f) == (w, Rejected(UnknownVm))
    ensures MayHave(rule, vm) && vm in cfg.sockets ==>
              AttachOne(cfg, w, d, rule, requested, f) == AttachTo(cfg, w, d, vm, f)
  {
    assert rule.allowedVms == [vm] ==> |rule.allowedVms| == 1 && rule.allowedVms[0] == vm;
  }

  /** Where no VM is wanted, the user is asked, once until somebody answers. */
  lemma NobodyWanted(cfg: Config, w: World, d: UsbDevice, rule: UsbRule, requested: Option<string>, f: AttachFaults)
    requires forall vm :: !Wanted(w, d, rule, requested, vm)
    ensures var (w', result) := AttachOne(cfg, w, d, rule, requested, f);
      && result == Pending
      && w' == w.(pending := w.pending + {PersistentId(d)},
                  log := if PersistentId(d) in w.pending then w.log else w.log + [UsbSelectVm(d.sysName)])
  {
    assert requested == None && rule.targetVm == None && PersistentId(d) !in w.persistent.selected by {
      assert requested.Some? ==> Wanted(w, d, rule, requested, requested.value);
      assert rule.targetVm.Some? ==> requested.Some? || Wanted(w, d, rule, requested, rule.targetVm.value);
      assert PersistentId(d) in w.persistent.selected ==>
               requested.Some? || rule.targetVm.Some?
               || Wanted(w, d, rule, requested, w.persistent.selected[PersistentId(d)]);
    }
    if |rule.allowedVms| == 1 {
      assert rule.allowedVms == [rule.allowedVms[0]];
      assert Wanted(w, d, rule, requested, rule.allowedVms[0]);
    }
    assert PersistentId(d) in w.pending ==> w.pending + {PersistentId(d)} == w.pending;
  }

  lemma SomebodyWanted(w: World, d: UsbDevice, rule: UsbRule, requested: Option<string>) returns (vm: Option<string>)
    ensures vm.Some? ==> Wanted(w, d, rule, requested, vm.value)
    ensures vm.None? ==> forall v :: !Wanted(w, d, rule, requested, v)
  {
    vm := ChooseVm(w.persistent.selected, PersistentId(d), rule, requested);
    if |rule.allowedVms| == 1 {
      assert rule.allowedVms == [rule.allowedVms[0]];
    }
  }

  // ----- commands -----

  /** An action for one of these devices. Attach commands and notifications go
      to a VM its rule allows, and under a scope to the VM in scope. */
  ghost predicate Allowed(cfg: Config, devices: seq<RoutedUsb>, scope: Option<string>, action: Action) {
    match action
    case UsbAttachCommand(socket, node, _) =>
      exists i, vm :: 0 <= i < |devices| && devices[i].device.node == Some(node) && MayHave(devices[i].rule, vm)
                      && Get(cfg.sockets, vm) == Some(socket) && (scope.None? || scope == Some(vm))
    case UsbAttached(sysName, vm) =>
      && (exists i :: 0 <= i < |devices| && devices[i].device.sysName == sysName && MayHave(devices[i].rule, vm))
      && (scope.None? || scope == Some(vm))
    case UsbDetached(node, _) => exists i :: 0 <= i < |devices| && devices[i].device.node == Some(node)
    case UsbSelectVm(sysName) => exists i :: 0 <= i < |devices| && devices[i].device.sysName == sysName
    case _ => action.UsbDetachCommand?
  }

  ghost predicate AllAllowed(cfg: Config, devices: seq<RoutedUsb>, scope: Option<string>, log: seq<Action>,
                             log': seq<Action>)
  {
    log <= log' && forall i :: |log| <= i < |log'| ==> Allowed(cfg, devices, scope, log'[i])
  }

  /** What is newly held is held by a VM the device's rule allows. */
  ghost predicate HeldAsAllowed(w: World, w': World, devices: seq<RoutedUsb>, scope: Option<string>) {
    forall node :: node in w'.usbVms && Get(w.usbVms, node) != Get(w'.usbVms, node) ==>
                     NewHolder(devices, scope, node, w'.usbVms[node])
  }

  ghost predicate NewHolder(devices: seq<RoutedUsb>, scope: Option<string>, node: string, vm: string) {
    && (exists i :: 0 <= i < |devices| && devices[i].device.node == Some(node) && MayHave(devices[i].rule, vm))
    && (scope.None? || scope == Some(vm))
  }

  ghost predicate StaysAllowed(cfg: Config, w: World, w': World, devices: seq<RoutedUsb>, scope: Option<string>) {
    AllAllowed(cfg, devices, scope, w.log, w'.log) && HeldAsAllowed(w, w', devices, scope)
  }

  lemma StaysAllowedTransitive(cfg: Config, w: World, w1: World, w2: World, devices: seq<RoutedUsb>,
                               scope: Option<string>)
    requires StaysAllowed(cfg, w, w1, devices, scope) && StaysAllowed(cfg, w1, w2, devices, scope)
    ensures StaysAllowed(cfg, w, w2, devices, scope)
  {
    forall i | |w.log| <= i < |w2.log| ensures Allowed(cfg, devices, scope, w2.log[i]) {
      if i < |w1.log| {
        assert w2.log[i] == w1.log[i];
      }
    }
    forall node | node in w2.usbVms && Get(w.usbVms, node) != Get(w2.usbVms, node)
      ensures NewHolder(devices, scope, node, w2.usbVms[node])
    {
      assert Get(w1.usbVms, node) == Get(w2.usbVms, node) ==> NewHolder(devices, scope, node, w1.usbVms[node]);
    }
  }

  lemma MoreDevicesAllowed(cfg: Config, w: World, w': World, x: RoutedUsb, devices: seq<RoutedUsb>, k: nat,
                           scope: Option<string>)
    requires k < |devices| && devices[k] == x && StaysAllowed(cfg, w, w', [x], scope)
    ensures StaysAllowed(cfg, w, w', devices, scope)
  {
    forall i | |w.log| <= i < |w'.log| ensures Allowed(cfg, devices, scope, w'.log[i]) {
      assert Allowed(cfg, [x], scope, w'.log[i]);
    }
    forall node | node in w'.usbVms && Get(w.usbVms, node) != Get(w'.usbVms, node)
      ensures NewHolder(devices, scope, node, w'.usbVms[node])
    {
      assert NewHolder([x], scope, node, w'.usbVms[node]);
    }
  }

  lemma PrefixAllowed(cfg: Config, w: World, w': World, devices: seq<RoutedUsb>, n: nat, scope: Option<string>)
    requires n <= |devices| && StaysAllowed(cfg, w, w', devices[..n], scope)
    ensures StaysAllowed(cfg, w, w', devices, scope)
  {
    forall i | |w.log| <= i < |w'.log| ensures Allowed(cfg, devices, scope, w'.log[i]) {
      assert Allowed(cfg, devices[..n], scope, w'.log[i]);
    }
    forall node | node in w'.usbVms && Get(w.usbVms, node) != Get(w'.usbVms, node)
      ensures NewHolder(devices, scope, node, w'.usbVms[node])
    {
      assert NewHolder(devices[..n], scope, node, w'.usbVms[node]);
    }
  }

  // ----- one attach -----

  lemma ErrandIsAllowed(cfg: Config, x: RoutedUsb, scope: Option<string>, e: Errand, vm: string, log: seq<Action>,
                        log': seq<Action>)
    requires Follows(e, log, log') && e.sysName == x.device.sysName && e.node == x.device.node
    requires vm in cfg.sockets && e.to == Some((vm, cfg.sockets[vm])) && MayHave(x.rule, vm)
    requires scope.None? || scope == Some(vm)
    ensures AllAllowed(cfg, [x], scope, log, log')
  {
    FollowsMeans(e, log, log');
    forall i | |log| <= i < |log'| ensures Allowed(cfg, [x], scope, log'[i]) {
      assert Fits(e, log'[i]) && [x][0] == x;
      if log'[i].UsbAttachCommand? {
        assert x.device.node == Some(log'[i].node) && Get(cfg.sockets, vm) == Some(log'[i].socket);
      }
    }
  }

  /** Every attach command an attach issues goes to a VM the rule allows, and
      so does every notification; who holds the device afterwards and did not
      before is such a VM. */
  lemma AttachIsAllowed(cfg: Config, w: World, x: RoutedUsb, requested: Option<string>, f: AttachFaults,
                        scope: Option<string>)
    requires scope.None? || requested == scope
    ensures StaysAllowed(cfg, w, AttachOne(cfg, w, x.device, x.rule, requested, f).0, [x], scope)
  {
    var vm := SomebodyWanted(w, x.device, x.rule, requested);
    if vm.None? {
      NobodyWanted(cfg, w, x.device, x.rule, requested, f);
      AskIsAllowed(cfg, w, AttachOne(cfg, w, x.device, x.rule, requested, f).0, x, scope);
    } else {
      WantedIsChosen(cfg, w, x.device, x.rule, requested, f, vm.value);
      if MayHave(x.rule, vm.value) && vm.value in cfg.sockets {
        ChosenIsAllowed(cfg, w, x, vm.value, f, scope);
      }
    }
  }

  lemma AskIsAllowed(cfg: Config, w: World, w': World, x: RoutedUsb, scope: Option<string>)
    requires w'.usbVms == w.usbVms && (w'.log == w.log || w'.log == w.log + [UsbSelectVm(x.device.sysName)])
    ensures StaysAllowed(cfg, w, w', [x], scope)
  {
    assert [x][0] == x;
  }

  lemma ChosenIsAllowed(cfg: Config, w: World, x: RoutedUsb, vm: string, f: AttachFaults, scope: Option<string>)
    requires vm in cfg.sockets && MayHave(x.rule, vm) && (scope.None? || scope == Some(vm))
    ensures StaysAllowed(cfg, w, AttachTo(cfg, w, x.device, vm, f).0, [x], scope)
  {
    var w' := AttachTo(cfg, w, x.device, vm, f).0;
    AttachToFollows(cfg, w, x.device, vm, f);
    ErrandIsAllowed(cfg, x, scope, AttachErrand(cfg, w, x.device, vm), vm, w.log, w'.log);
    AttachHolder(cfg, w, x.device, vm, f);
    OneHolderChanges(w, w', x, scope, vm);
  }

  lemma OneHolderChanges(w: World, w': World, x: RoutedUsb, scope: Option<string>, vm: string)
    requires SameUsbVmsElsewhere(w.usbVms, w'.usbVms, x.device.node) && MayHave(x.rule, vm)
    requires scope.None? || scope == Some(vm)
    requires x.device.node.Some? ==>
               var node := x.device.node.value;
               node in w'.usbVms ==> Get(w'.usbVms, node) == Get(w.usbVms, node) || w'.usbVms[node] == vm
    ensures HeldAsAllowed(w, w', [x], scope)
  {
    forall node | node in w'.usbVms && Get(w.usbVms, node) != Get(w'.usbVms, node)
      ensures NewHolder([x], scope, node, w'.usbVms[node])
    {
      if x.device.node.Some? && x.device.node.value != node {
        ElsewhereAt(w.usbVms, w'.usbVms, x.device.node.value, node);
      }
      assert [x][0] == x;
    }
  }

  /** An attach makes nobody but its VM the holder of the device. */
  lemma AttachHolder(cfg: Config, w: World, d: UsbDevice, vm: string, f: AttachFaults)
    requires vm in cfg.sockets
    ensures var w' := AttachTo(cfg, w, d, vm, f).0;
      && SameUsbVmsElsewhere(w.usbVms, w'.usbVms, d.node)
      && (d.node.Some? ==> HolderOr(w, w', d.node.value, vm))
  {
    AttachToFrame(cfg, w, d, vm, f);
    AttachToCases(cfg, w, d, vm, f);
    var guest := GuestAt(w, cfg.sockets[vm]);
    if d.node.Some? && (Preflighted(cfg, d) ==> guest.Live?) {
      var node := d.node.value;
      var preflight := if Preflighted(cfg, d) then Some(guest) else None;
      if MustMove(w, d, vm) {
        MoveHolder(cfg, w, d, node, vm, cfg.sockets[vm], preflight, f);
      }
      UnderGuardHolder(cfg, w, d, node, vm, cfg.sockets[vm], preflight, Get(w.usbVms, node) != Some(vm), f);
    }
  }

  ghost predicate HolderOr(w: World, w': World, node: string, vm: string) {
    node in w'.usbVms ==> Get(w'.usbVms, node) == Get(w.usbVms, node) || w'.usbVms[node] == vm
  }

  lemma MoveHolder(cfg: Config, w: World, d: UsbDevice, node: string, vm: string, socket: string,
                   preflight: Option<Guest>, f: AttachFaults)
    requires d.node == Some(node) && (preflight.Some? ==> preflight.value.Live?)
    ensures var w1 := DetachOne(cfg, w, d, false, f.move).0;
      HolderOr(w, w1, node, vm)
      && HolderOr(w, UnderGuard(cfg, w1, d, node, vm, socket, preflight, true, f).0, node, vm)
  {
    var w1 := DetachOne(cfg, w, d, false, f.move).0;
    DetachHolder(cfg, w, d, node, f.move);
    UnderGuardHolder(cfg, w1, d, node, vm, socket, preflight, true, f);
  }

  lemma DetachHolder(cfg: Config, w: World, d: UsbDevice, node: string, f: DetachFaults)
    requires d.node == Some(node)
    ensures var w1 := DetachOne(cfg, w, d, false, f).0;
      w1.usbVms == w.usbVms || w1.usbVms == Without(w.usbVms, node)
  {
    if vm :| Detaching.TakenFrom(w, d, vm) {
      if e :| Detaching.DetachError(cfg, w, d, vm, f, e) {
        Detaching.DetachFails(cfg, w, d, false, f, vm, e);
      } else {
        Detaching.DetachSettles(cfg, w, d, false, f, vm);
      }
    } else {
      Detaching.DetachOfFreeDevice(cfg, w, d, false, f);
    }
  }

  lemma UnderGuardHolder(cfg: Config, w: World, d: UsbDevice, node: string, vm: string, socket: string,
                         preflight: Option<Guest>, changed: bool, f: AttachFaults)
    requires preflight.Some? ==> preflight.value.Live?
    ensures HolderOr(w, UnderGuard(cfg, w, d, node, vm, socket, preflight, changed, f).0, node, vm)
  {
    Attaching.UnderGuardEnds(cfg, w, d, node, vm, socket, preflight, changed, f);
    Recording.UnderGuardMakes(cfg, w, d, node, vm, socket, preflight, changed, f);
    EndsHeld(cfg, w, UnderGuard(cfg, w, d, node, vm, socket, preflight, changed, f), d, node, vm, socket, preflight,
             changed, f);
  }

  lemma EndsHeld(cfg: Config, w: World, s: (World, AttachResult), d: UsbDevice, node: string, vm: string,
                 socket: string, preflight: Option<Guest>, changed: bool, f: AttachFaults)
    requires Attaching.GuardEnds(cfg, w, s, d, vm, socket, preflight, changed, f)
    requires Recording.Makes(cfg, w, s, d, node, vm, f)
    ensures HolderOr(w, s.0, node, vm)
  {
  }

  // ----- resumes and reconciliations -----

  /** A resume attaches to allowed VMs only, and under a scope to that VM only. */
  lemma {:induction false} ResumeIsAllowed(cfg: Config, w: World, devices: seq<RoutedUsb>, scope: Option<string>,
                                           fs: string -> AttachFaults)
    ensures StaysAllowed(cfg, w, ResumeUsb(cfg, w, devices, scope, fs).0, devices, scope)
  {
    if devices != [] {
      var n := |devices| - 1;
      ResumeIsAllowed(cfg, w, devices[..n], scope, fs);
      var w1, x := ResumeUsb(cfg, w, devices[..n], scope, fs).0, devices[n];
      PrefixAllowed(cfg, w, w1, devices, n, scope);
      ResumeOneIsAllowed(cfg, w1, x, scope, fs(x.device.sysName));
      var w2 := ResumeOne(cfg, w1, x, scope, fs(x.device.sysName)).0;
      MoreDevicesAllowed(cfg, w1, w2, x, devices, n, scope);
      StaysAllowedTransitive(cfg, w, w1, w2, devices, scope);
    }
  }

  lemma ResumeOneIsAllowed(cfg: Config, w: World, x: RoutedUsb, scope: Option<string>, f: AttachFaults)
    ensures StaysAllowed(cfg, w, ResumeOne(cfg, w, x, scope, f).0, [x], scope)
  {
    var target := ResumeTarget(w, x);
    if scope.None? || target == scope {
      AttachIsAllowed(cfg, w, x, target, f, scope);
      var w1 := AttachOne(cfg, w, x.device, x.rule, target, f).0;
      assert StaysAllowed(cfg, w, w1.(deferred := true), [x], scope);
    }
  }

  /** The rest of a reconciliation attaches nothing. */
  ghost predicate AttachesNothing(w: World, w': World) {
    && w.log <= w'.log && w'.usbVms.Keys <= w.usbVms.Keys
    && (forall node :: node in w'.usbVms ==> w'.usbVms[node] == w.usbVms[node])
    && (forall i :: |w.log| <= i < |w'.log| ==> !w'.log[i].UsbAttachCommand? && !w'.log[i].UsbAttached?)
  }

  lemma AttachesNothingTransitive(w: World, w1: World, w2: World)
    requires AttachesNothing(w, w1) && AttachesNothing(w1, w2)
    ensures AttachesNothing(w, w2)
  {
    forall i | |w.log| <= i < |w2.log| ensures !w2.log[i].UsbAttachCommand? && !w2.log[i].UsbAttached? {
      if i < |w1.log| {
        assert w2.log[i] == w1.log[i];
      }
    }
  }

  lemma {:induction false} ForgetAllAttachesNothing(cfg: Config, w: World, order: seq<string>,
                                                    scanned: map<string, UsbDevice>, fs: string -> ForgetFaults)
    ensures AttachesNothing(w, ForgetAllGone(cfg, w, order, scanned, fs).0)
    decreases |order|
  {
    if order != [] {
      var key := order[0];
      if key in scanned || key !in w.observedUsb {
        ForgetAllAttachesNothing(cfg, w, order[1..], scanned, fs);
      } else {
        var (w1, outcome) := ForgetGone(cfg, w, key, w.observedUsb[key], fs(key));
        ForgetGoneAttachesNothing(cfg, w, key, w.observedUsb[key], fs(key));
        if outcome.Done? {
          ForgetAllAttachesNothing(cfg, w1, order[1..], scanned, fs);
          AttachesNothingTransitive(w, w1, ForgetAllGone(cfg, w1, order[1..], scanned, fs).0);
        }
      }
    }
  }

  lemma ForgetGoneAttachesNothing(cfg: Config, w: World, key: string, d: UsbDevice, f: ForgetFaults)
    ensures AttachesNothing(w, ForgetGone(cfg, w, key, d, f).0)
  {
    if key in w.persistent.ports && w.persistent.ports[key].vm in cfg.sockets {
      var w1 := DropPort(cfg, w, w.persistent.ports[key], f).0;
      DropPortFrame(cfg, w, w.persistent.ports[key], f);
      FinishForgetAttachesNothing(cfg, w1, key, d, f);
      assert AttachesNothing(w, w1);
      AttachesNothingTransitive(w, w1, FinishForget(cfg, w1, key, d, f).0);
    } else {
      FinishForgetAttachesNothing(cfg, w, key, d, f);
    }
  }

  lemma FinishForgetAttachesNothing(cfg: Config, w: World, key: string, d: UsbDevice, f: ForgetFaults)
    ensures AttachesNothing(w, FinishForget(cfg, w, key, d, f).0)
  {
  }
}
