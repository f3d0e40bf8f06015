/**
 Passes over PCI functions: which of them a scope leaves alone, and which
 failures are reported and which put off.
 */
module PciRuns {
  import opened Prelude
  import opened World
  import opened UsbRuns
  import opened PciRules
  import opened PciSpec
  import opened PciCommands
  import opened PciReconcile
  import PciOutcomes
  import Frames

  /** The VM's socket is not there. */
  ghost predicate Gone(cfg: Config, w: World, vm: string) {
    vm in cfg.sockets && GuestAt(w, cfg.sockets[vm]).NoSocket?
  }

  lemma SocketsStay(cfg: Config, w: World, w': World, vm: string)
    requires SameUsbPorts(w.guests, w'.guests)
    ensures Gone(cfg, w', vm) == Gone(cfg, w, vm)
  {
  }

  // ----- resuming -----

  /** A resume is to attach the function: it is not marked, and no other VM is in scope. */
  ghost predicate Due(w: World, x: Routed, scope: Option<string>) {
    PciPersistentId(x.device.address) !in w.persistent.disconnected && (scope.None? || scope == Some(x.rule.targetVm))
  }

  ghost function TurnWorld(cfg: Config, groups: Groups, w: World, devices: seq<Routed>, scope: Option<string>,
                           fs: string -> PciFaults, i: nat): World
    requires i <= |devices|
  {
    ResumePci(cfg, groups, w, devices[..i], scope, fs).0
  }

  /** The function's turn ends with its being attached, or it was not due, or
      its VM is not there. */
  ghost predicate TurnIsFine(cfg: Config, groups: Groups, w: World, devices: seq<Routed>, scope: Option<string>,
                             fs: string -> PciFaults, i: nat)
    requires i < |devices|
  {
    var w1, x := TurnWorld(cfg, groups, w, devices, scope, fs, i), devices[i];
    Due(w1, x, scope) && !Gone(cfg, w, x.rule.targetVm) ==>
      AttachOnePci(cfg, groups, w1, x, Some(x.rule.targetVm), fs(x.device.address)).1.PciDone?
  }

  lemma OneTurn(cfg: Config, groups: Groups, w: World, x: Routed, scope: Option<string>, f: PciFaults)
    ensures var (w', ok) := ResumeOnePci(cfg, groups, w, x, scope, f);
      var done := AttachOnePci(cfg, groups, w, x, Some(x.rule.targetVm), f).1.PciDone?;
      && (ok <==> (Due(w, x, scope) && !Gone(cfg, w, x.rule.targetVm) ==> done))
      && (w'.deferred <==> w.deferred || (Due(w, x, scope) && Gone(cfg, w, x.rule.targetVm)))
      && (!Due(w, x, scope) ==> w' == w)
  {
    var w1 := AttachOnePci(cfg, groups, w, x, Some(x.rule.targetVm), f).0;
    AttachPciSettles(cfg, groups, w, x, f);
    AttachPciKeepsBindings(cfg, groups, w, x, Some(x.rule.targetVm), f);
    SocketsStay(cfg, w, w1, x.rule.targetVm);
  }

  /** A pass fails if and only if one of the functions whose VM is there could
      not be attached, and puts work off if and only if one was due for a VM
      that is not: real errors are reported, and a VM that is down is no error. */
  lemma {:induction false} ResumePciReports(cfg: Config, groups: Groups, w: World, devices: seq<Routed>, n: nat,
                                            scope: Option<string>, fs: string -> PciFaults)
    requires DistinctAddresses(devices) && n <= |devices|
    ensures var (w', ok) := ResumePci(cfg, groups, w, devices[..n], scope, fs);
      && SameUsbPorts(w.guests, w'.guests)
      && (forall i :: n <= i < |devices| ==> (Due(w', devices[i], scope) <==> Due(w, devices[i], scope)))
      && (ok <==> forall i :: 0 <= i < n ==> TurnIsFine(cfg, groups, w, devices, scope, fs, i))
      && (w'.deferred <==>
            w.deferred || exists i :: 0 <= i < n && Due(w, devices[i], scope) && Gone(cfg, w, devices[i].rule.targetVm))
  {
    if n == 0 {
      assert devices[..0] == [];
    } else {
      var m := n - 1;
      assert devices[..n][..m] == devices[..m];
      ResumePciReports(cfg, groups, w, devices, m, scope, fs);
      var w1, x := ResumePci(cfg, groups, w, devices[..m], scope, fs).0, devices[m];
      var f := fs(x.device.address);
      OneTurn(cfg, groups, w1, x, scope, f);
      SocketsStay(cfg, w, w1, x.rule.targetVm);
      assert TurnIsFine(cfg, groups, w, devices, scope, fs, m) <==> ResumeOnePci(cfg, groups, w1, x, scope, f).1;
      ResumeOnePciKeepsBindings(cfg, groups, w1, x, scope, f);
      var w2 := ResumeOnePci(cfg, groups, w1, x, scope, f).0;
      SameUsbPortsTransitive(w, w1, w2);
      forall i | n <= i < |devices| ensures Due(w2, devices[i], scope) <==> Due(w, devices[i], scope) {
        OtherStaysDue(cfg, groups, w1, x, scope, f, devices[i]);
      }
    }
  }

  lemma SameUsbPortsTransitive(w: World, w1: World, w2: World)
    requires SameUsbPorts(w.guests, w1.guests) && SameUsbPorts(w1.guests, w2.guests)
    ensures SameUsbPorts(w.guests, w2.guests)
  {
  }

  lemma OtherStaysDue(cfg: Config, groups: Groups, w: World, x: Routed, scope: Option<string>, f: PciFaults, y: Routed)
    requires x.device.address != y.device.address
    ensures Due(ResumeOnePci(cfg, groups, w, x, scope, f).0, y, scope) <==> Due(w, y, scope)
  {
    var id, other := PciPersistentId(x.device.address), PciPersistentId(y.device.address);
    var w' := AttachOnePci(cfg, groups, w, x, Some(x.rule.targetVm), f).0;
    AttachPciFrame(cfg, groups, w, x, Some(x.rule.targetVm), f);
    assert other[4..] == y.device.address && id[4..] == x.device.address;
    assert other in Frames.OtherMarks(w.persistent.disconnected, id) <==> other in w.persistent.disconnected;
    assert other in Frames.OtherMarks(w'.persistent.disconnected, id) <==> other in w'.persistent.disconnected;
  }

  // ----- what a scope leaves alone -----

  /** An action of an attach of one of these functions, unmarked, to a VM in scope. */
  ghost predicate InScopeAction(cfg: Config, groups: Groups, w: World, devices: seq<Routed>, scope: Option<string>,
                                action: Action)
  {
    exists i :: 0 <= i < |devices| && AttachAction(cfg, groups, devices[i], action) && Due(w, devices[i], scope)
  }

  /** A resume acts for unmarked functions in scope only: no other VM gets
      anything. */
  lemma {:induction false} ResumePciStaysInScope(cfg: Config, groups: Groups, w: World, devices: seq<Routed>,
                                                 scope: Option<string>, fs: string -> PciFaults)
    ensures var w' := ResumePci(cfg, groups, w, devices, scope, fs).0;
      && w.log <= w'.log
      && KeepsPciMarks(w, w')
      && forall i :: |w.log| <= i < |w'.log| ==> InScopeAction(cfg, groups, w, devices, scope, w'.log[i])
  {
    if devices != [] {
      var n := |devices| - 1;
      ResumePciStaysInScope(cfg, groups, w, devices[..n], scope, fs);
      var w1, x := ResumePci(cfg, groups, w, devices[..n], scope, fs).0, devices[n];
      var w2 := ResumeOnePci(cfg, groups, w1, x, scope, fs(x.device.address)).0;
      if Due(w1, x, scope) {
        AttachPciActs(cfg, groups, w1, x, Some(x.rule.targetVm), fs(x.device.address));
        MarksStay(cfg, groups, w1, x, fs(x.device.address));
        ScopeExtends(cfg, groups, w, w1, w2, devices, scope);
      } else {
        assert w2 == w1;
        ScopeExtends(cfg, groups, w, w1, w1, devices, scope);
      }
    }
  }

  /** No PCI mark is lifted. */
  ghost predicate KeepsPciMarks(w: World, w': World) {
    forall a :: PciPersistentId(a) in w.persistent.disconnected ==> PciPersistentId(a) in w'.persistent.disconnected
  }

  lemma ScopeExtends(cfg: Config, groups: Groups, w: World, w1: World, w2: World, devices: seq<Routed>,
                     scope: Option<string>)
    requires devices != [] && w.log <= w1.log <= w2.log && KeepsPciMarks(w, w1)
    requires forall i :: |w.log| <= i < |w1.log| ==>
                           InScopeAction(cfg, groups, w, devices[..|devices| - 1], scope, w1.log[i])
    requires w2.log == w1.log
             || (Due(w1, devices[|devices| - 1], scope)
                 && AttachActions(cfg, groups, devices[|devices| - 1], w1.log, w2.log))
    ensures forall i :: |w.log| <= i < |w2.log| ==> InScopeAction(cfg, groups, w, devices, scope, w2.log[i])
  {
    var n := |devices| - 1;
    forall i | |w.log| <= i < |w2.log| ensures InScopeAction(cfg, groups, w, devices, scope, w2.log[i]) {
      if i < |w1.log| {
        assert w2.log[i] == w1.log[i] && InScopeAction(cfg, groups, w, devices[..n], scope, w1.log[i]);
        var j :| 0 <= j < n && AttachAction(cfg, groups, devices[..n][j], w1.log[i]) && Due(w, devices[..n][j], scope);
        assert AttachAction(cfg, groups, devices[j], w2.log[i]) && Due(w, devices[j], scope);
      } else {
        assert AttachAction(cfg, groups, devices[n], w2.log[i]) && Due(w, devices[n], scope);
      }
    }
  }

  /** An attach lifts no mark but the function's own. */
  lemma MarksStay(cfg: Config, groups: Groups, w: World, x: Routed, f: PciFaults)
    requires PciPersistentId(x.device.address) !in w.persistent.disconnected
    ensures KeepsPciMarks(w, AttachOnePci(cfg, groups, w, x, Some(x.rule.targetVm), f).0)
  {
    var id := PciPersistentId(x.device.address);
    var w' := AttachOnePci(cfg, groups, w, x, Some(x.rule.targetVm), f).0;
    AttachPciFrame(cfg, groups, w, x, Some(x.rule.targetVm), f);
    forall a | PciPersistentId(a) in w.persistent.disconnected ensures PciPersistentId(a) in w'.persistent.disconnected
    {
      assert PciPersistentId(a)[4..] == a && id[4..] == x.device.address;
      assert PciPersistentId(a) in Frames.OtherMarks(w.persistent.disconnected, id);
      assert PciPersistentId(a) in Frames.OtherMarks(w'.persistent.disconnected, id);
    }
  }

  /** An action of a detach of one of these functions from a VM in scope. */
  ghost predicate InScopeRemoval(cfg: Config, groups: Groups, devices: seq<Routed>, scope: Option<string>,
                                 pciVms: map<string, string>, action: Action)
  {
    exists i :: 0 <= i < |devices| && LeavesVm(pciVms, devices[i], scope)
                && DetachAction(cfg, groups, devices[i], pciVms[devices[i].device.address], action)
  }

  /** The function is on record with a VM in scope, and its rule lets it go. */
  ghost predicate LeavesVm(pciVms: map<string, string>, x: Routed, scope: Option<string>) {
    && !x.rule.skipOnSuspend && x.device.address in pciVms
    && (scope.None? || scope == Some(pciVms[x.device.address]))
  }

  /** A suspend takes functions from the VM in scope only, spares those whose
      rule opts out, and forgets nobody else. */
  lemma {:induction false} SuspendPciStaysInScope(cfg: Config, groups: Groups, w: World, devices: seq<Routed>,
                                                  scope: Option<string>, fs: string -> PciFaults)
    ensures var w' := SuspendPci(cfg, groups, w, devices, scope, fs).0;
      && w.log <= w'.log && w'.pciVms.Keys <= w.pciVms.Keys
      && (forall a :: a in w'.pciVms ==> w'.pciVms[a] == w.pciVms[a])
      && (forall i :: |w.log| <= i < |w'.log| ==> InScopeRemoval(cfg, groups, devices, scope, w.pciVms, w'.log[i]))
      && ((forall i :: 0 <= i < |devices| ==> !LeavesVm(w.pciVms, devices[i], scope)) ==> w' == w)
  {
    if devices != [] {
      var n := |devices| - 1;
      SuspendPciStaysInScope(cfg, groups, w, devices[..n], scope, fs);
      var w1, x := SuspendPci(cfg, groups, w, devices[..n], scope, fs).0, devices[n];
      SuspendOneStaysInScope(cfg, groups, w1, x, scope, fs(x.device.address));
      var w2 := SuspendOnePci(cfg, groups, w1, x, scope, fs(x.device.address)).0;
      forall i | |w.log| <= i < |w2.log| ensures InScopeRemoval(cfg, groups, devices, scope, w.pciVms, w2.log[i]) {
        if i < |w1.log| {
          assert w2.log[i] == w1.log[i] && InScopeRemoval(cfg, groups, devices[..n], scope, w.pciVms, w1.log[i]);
          var j :| 0 <= j < n && LeavesVm(w.pciVms, devices[..n][j], scope)
                   && DetachAction(cfg, groups, devices[..n][j], w.pciVms[devices[..n][j].device.address], w1.log[i]);
          assert LeavesVm(w.pciVms, devices[j], scope);
        } else {
          assert LeavesVm(w.pciVms, devices[n], scope);
        }
      }
      if forall i :: 0 <= i < |devices| ==> !LeavesVm(w.pciVms, devices[i], scope) {
        assert forall i :: 0 <= i < n ==> devices[..n][i] == devices[i];
        assert !LeavesVm(w.pciVms, devices[n], scope);
      }
    }
  }

  lemma SuspendOneStaysInScope(cfg: Config, groups: Groups, w: World, x: Routed, scope: Option<string>, f: PciFaults)
    ensures var w' := SuspendOnePci(cfg, groups, w, x, scope, f).0;
      && w.log <= w'.log && w'.pciVms.Keys <= w.pciVms.Keys
      && (forall a :: a in w'.pciVms ==> w'.pciVms[a] == w.pciVms[a])
      && (if LeavesVm(w.pciVms, x, scope) then
            forall i :: |w.log| <= i < |w'.log| ==>
                          DetachAction(cfg, groups, x, w.pciVms[x.device.address], w'.log[i])
          else w' == w)
  {
    if LeavesVm(w.pciVms, x, scope) {
      var vm := w.pciVms[x.device.address];
      var (w1, result) := DetachOnePci(cfg, groups, w, x, false, f);
      DetachPciActs(cfg, groups, w, x, false, f, vm);
    }
  }

  // ----- what a suspend leaves -----

  /** What a suspend does to one function's records: nothing, or it takes it away. */
  ghost predicate Released(groups: Groups, w: World, w': World, x: Routed) {
    && groups(x.device.address).Ok?
    && (forall a :: Get(w'.pciVms, a) == if Taken(groups, x, a) then None else Get(w.pciVms, a))
    && PciPersistentId(x.device.address) !in w'.persistent.disconnected
    && (forall id :: id != PciPersistentId(x.device.address) ==>
          (id in w'.persistent.disconnected <==> id in w.persistent.disconnected))
  }

  lemma SuspendOneReleases(cfg: Config, groups: Groups, w: World, x: Routed, scope: Option<string>, f: PciFaults)
    ensures var (w', ok) := SuspendOnePci(cfg, groups, w, x, scope, f);
      && (forall id :: id in w'.persistent.disconnected ==> id in w.persistent.disconnected)
      && (LeavesVm(w.pciVms, x, scope) && ok ==> Released(groups, w, w', x))
  {
    if LeavesVm(w.pciVms, x, scope) {
      var vm := w.pciVms[x.device.address];
      var result := DetachOnePci(cfg, groups, w, x, false, f).1;
      if GetsToRecords(result) {
        DetachPciSettles(cfg, groups, w, x, false, f, vm);
        var w' := DetachOnePci(cfg, groups, w, x, false, f).0;
        assert forall a :: Taken(groups, x, a) ==> Get(w'.pciVms, a) == None;
      } else {
        PciOutcomes.DetachPciSucceedsIff(cfg, groups, w, x, false, f, vm);
      }
    }
  }

  /** The function's group lists the function. */
  ghost predicate InOwn(groups: Groups, x: Routed) {
    groups(x.device.address).Ok? ==> Taken(groups, x, x.device.address)
  }

  /** A suspend that succeeds leaves no function it was to take on record. It
      marks none, so that they come back with the next resume. */
  lemma {:induction false} SuspendPciReleases(cfg: Config, groups: Groups, w: World, devices: seq<Routed>,
                                              scope: Option<string>, fs: string -> PciFaults)
    ensures var (w', ok) := SuspendPci(cfg, groups, w, devices, scope, fs);
      && (forall id :: id in w'.persistent.disconnected ==> id in w.persistent.disconnected)
      && (ok ==> forall i :: 0 <= i < |devices| && LeavesVm(w.pciVms, devices[i], scope) && InOwn(groups, devices[i])
                             ==> devices[i].device.address !in w'.pciVms)
  {
    if devices != [] {
      var n := |devices| - 1;
      SuspendPciReleases(cfg, groups, w, devices[..n], scope, fs);
      var w1, x := SuspendPci(cfg, groups, w, devices[..n], scope, fs).0, devices[n];
      var (w2, last) := SuspendOnePci(cfg, groups, w1, x, scope, fs(x.device.address));
      SuspendOneReleases(cfg, groups, w1, x, scope, fs(x.device.address));
      SuspendOneStaysInScope(cfg, groups, w1, x, scope, fs(x.device.address));
      SuspendPciStaysInScope(cfg, groups, w, devices[..n], scope, fs);
      forall i | 0 <= i < |devices| && LeavesVm(w.pciVms, devices[i], scope) && InOwn(groups, devices[i])
        ensures SuspendPci(cfg, groups, w, devices, scope, fs).1 ==> devices[i].device.address !in w2.pciVms
      {
        assert i < n ==> devices[..n][i] == devices[i];
      }
    }
  }

  /** A suspend fails if and only if the detach of a function it is to take failed. */
  lemma {:induction false} SuspendPciReports(cfg: Config, groups: Groups, w: World, devices: seq<Routed>,
                                             scope: Option<string>, fs: string -> PciFaults)
    ensures SuspendPci(cfg, groups, w, devices, scope, fs).1 <==>
              forall i :: 0 <= i < |devices| ==> GoesWell(cfg, groups, w, devices, scope, fs, i)
  {
    if devices != [] {
      var n := |devices| - 1;
      SuspendPciReports(cfg, groups, w, devices[..n], scope, fs);
      forall i | 0 <= i < n
        ensures GoesWell(cfg, groups, w, devices[..n], scope, fs, i) == GoesWell(cfg, groups, w, devices, scope, fs, i)
      {
        assert devices[..n][..i] == devices[..i];
      }
      assert GoesWell(cfg, groups, w, devices, scope, fs, n) <==>
             SuspendOnePci(cfg, groups, SuspendPci(cfg, groups, w, devices[..n], scope, fs).0, devices[n], scope,
                           fs(devices[n].device.address)).1;
    }
  }

  ghost predicate GoesWell(cfg: Config, groups: Groups, w: World, devices: seq<Routed>, scope: Option<string>,
                           fs: string -> PciFaults, i: nat)
    requires i < |devices|
  {
    var w1, x := SuspendPci(cfg, groups, w, devices[..i], scope, fs).0, devices[i];
    LeavesVm(w1.pciVms, x, scope) ==> DetachOnePci(cfg, groups, w1, x, false, fs(x.device.address)).1.PciDone?
  }

  // ----- no failure keeps another function from its turn -----

  /** Whatever failed before, a function that is due is attached in its turn,
      and one that leaves its VM is detached. */
  lemma EveryTurnIsTaken(cfg: Config, groups: Groups, w: World, devices: seq<Routed>, scope: Option<string>,
                         fs: string -> PciFaults, i: nat)
    requires i < |devices|
    ensures var w1, x := ResumePci(cfg, groups, w, devices[..i], scope, fs).0, devices[i];
      var w2 := ResumePci(cfg, groups, w, devices[..i + 1], scope, fs).0;
      Due(w1, x, scope) ==>
        w2 == AttachOnePci(cfg, groups, w1, x, Some(x.rule.targetVm), fs(x.device.address)).0.(deferred := w2.deferred)
    ensures var w1, x := SuspendPci(cfg, groups, w, devices[..i], scope, fs).0, devices[i];
      LeavesVm(w1.pciVms, x, scope) ==>
        SuspendPci(cfg, groups, w, devices[..i + 1], scope, fs).0 ==
        DetachOnePci(cfg, groups, w1, x, false, fs(x.device.address)).0
  {
    assert devices[..i + 1][..i] == devices[..i];
    var w1 := ResumePci(cfg, groups, w, devices[..i], scope, fs).0;
    if Due(w1, devices[i], scope) {
      DeferralAlone(cfg, groups, w1, devices[i], scope, fs(devices[i].device.address));
    }
  }

  lemma DeferralAlone(cfg: Config, groups: Groups, w: World, x: Routed, scope: Option<string>, f: PciFaults)
    requires Due(w, x, scope)
    ensures var w' := ResumeOnePci(cfg, groups, w, x, scope, f).0;
      w' == AttachOnePci(cfg, groups, w, x, Some(x.rule.targetVm), f).0.(deferred := w'.deferred)
  {
  }
}
