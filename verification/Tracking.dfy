/**
 The daemon that keeps running remembers the holder of every device it has on
 record. In runs without restarts that is enough to move devices safely, and a
 reconciliation by itself clears what a device left behind under another name.
 */
module Tracking {
  import opened Prelude
  import opened World
  import opened UsbSpec
  import opened Frames
  import opened Soundness
  import opened UsbRuns
  import opened Selection
  import opened Exclusive
  import opened ExclusiveRuns
  import opened ReconcileSpec
  import HostPolicy

  // ----- what an observation clears -----

  /** Every record is of a name the manager has seen plugged in or sees now,
      the table is walked in full, and a name still there is the same device. */
  ghost predicate Seen(w: World, p: Pass) {
    && (forall s :: s in w.persistent.ports ==> s in ScanMap(p.usb) || s in w.observedUsb)
    && (forall s :: s in w.observedUsb ==> s in p.order)
    && (forall s :: s in w.persistent.ports && s in ScanMap(p.usb) ==>
                    SameIdent(w.persistent.ports[s], ScanMap(p.usb)[s]))
  }

  lemma {:induction false} ForgetAllClears(cfg: Config, w: World, order: seq<string>, scanned: map<string, UsbDevice>,
                                           fs: string -> ForgetFaults)
    requires ForgetAllGone(cfg, w, order, scanned, fs).1.Done?
    ensures var w' := ForgetAllGone(cfg, w, order, scanned, fs).0;
      && w'.observedUsb == w.observedUsb
      && forall s :: s in w'.persistent.ports ==>
           && s in w.persistent.ports && w'.persistent.ports[s] == w.persistent.ports[s]
           && !(s in order && s in w.observedUsb && s !in scanned)
    decreases |order|
  {
    if order != [] {
      var key := order[0];
      assert order == [key] + order[1..];
      if key in scanned || key !in w.observedUsb {
        ForgetAllClears(cfg, w, order[1..], scanned, fs);
      } else {
        var (w1, outcome) := ForgetGone(cfg, w, key, w.observedUsb[key], fs(key));
        ForgetGoneClears(cfg, w, key, w.observedUsb[key], fs(key));
        ForgetAllClears(cfg, w1, order[1..], scanned, fs);
      }
    }
  }

  lemma ForgetGoneClears(cfg: Config, w: World, key: string, d: UsbDevice, f: ForgetFaults)
    ensures var w' := ForgetGone(cfg, w, key, d, f).0;
      && w'.observedUsb == w.observedUsb
      && (ForgetGone(cfg, w, key, d, f).1.Done? ==> w'.persistent.ports == Without(w.persistent.ports, key))
  {
    if key in w.persistent.ports && w.persistent.ports[key].vm in cfg.sockets {
      DropPortFrame(cfg, w, w.persistent.ports[key], f);
      FinishForgetShape(cfg, DropPort(cfg, w, w.persistent.ports[key], f).0, key, d, f);
    } else {
      FinishForgetShape(cfg, w, key, d, f);
    }
  }

  lemma {:induction false} ScanMapMeans(devices: seq<RoutedUsb>, s: string)
    requires s in ScanMap(devices)
    ensures exists i :: 0 <= i < |devices| && devices[i].device == ScanMap(devices)[s] && devices[i].device.sysName == s
  {
    var n := |devices| - 1;
    if s == devices[n].device.sysName {
      assert devices[n].device == ScanMap(devices)[s];
    } else {
      ScanMapMeans(devices[..n], s);
      var i :| 0 <= i < n && devices[..n][i].device == ScanMap(devices[..n])[s] && devices[..n][i].device.sysName == s;
      assert devices[i].device == ScanMap(devices)[s];
    }
  }

  /** After an observation that succeeds, nothing else on record looks like a
      scanned device: a device that was plugged in again under another name
      has lost its old record, and its VM the old port. */
  lemma ObservationClears(cfg: Config, w: World, p: Pass, pciOrder: seq<string>, i: nat)
    requires DistinctDevices(p.usb) && Seen(w, p) && i < |p.usb|
    requires ObserveAll(cfg, w, p, pciOrder).1.Done?
    ensures var w' := ObserveAll(cfg, w, p, pciOrder).0; NoTwin(w'.guests, w'.persistent.ports, p.usb[i].device)
  {
    var scanned := ScanMap(p.usb);
    var w' := ObserveAll(cfg, w, p, pciOrder).0;
    ForgetAllClears(cfg, w.(log := w.log + Newcomers(w.observedUsb, p.arrivals)), p.order, scanned, p.forget);
    forall s | s in w'.persistent.ports && s != p.usb[i].device.sysName
      ensures !SameIdent(w'.persistent.ports[s], p.usb[i].device) {
      assert s in scanned;
      ScanMapMeans(p.usb, s);
      var j :| 0 <= j < |p.usb| && p.usb[j].device == scanned[s] && p.usb[j].device.sysName == s;
      assert Apparent(p.usb[j].device, p.usb[i].device);
    }
  }

  lemma SeenPassIsTwinFree(cfg: Config, w: World, p: Pass, pciOrder: seq<string>, i: nat)
    requires DistinctDevices(p.usb) && Seen(w, p) && i < |p.usb| && Observes(cfg, w, p, pciOrder)
    ensures var w' := Stages(cfg, w, p, pciOrder).0; NoTwin(w'.guests, w'.persistent.ports, p.usb[i].device)
  {
    GatedIsGateOnly(cfg, w.(deferred := false), p.gate);
    ObservationClears(cfg, Gated(cfg, w.(deferred := false), p.gate), p, pciOrder, i);
  }

  /** So a pass that sees a device under a new name is fair, and keeps every
      record true. */
  lemma SeenPassIsFair(cfg: Config, w: World, p: Pass, pciOrder: seq<string>)
    requires DistinctDevices(p.usb) && Seen(w, p) && PassSaves(p)
    requires forall i :: 0 <= i < |p.usb| ==>
                           && HonestAttach(p.usb[i].device, p.attach(p.usb[i].device.sysName))
                           && AttachSaves(p.attach(p.usb[i].device.sysName))
    ensures FairPass(cfg, w, p, pciOrder) && (Inv(cfg, w) ==> Inv(cfg, Reconciled(cfg, w, p, pciOrder).0))
  {
    if Resumes(cfg, w, p, pciOrder) {
      forall i | 0 <= i < |p.usb| ensures Identifiable(Stages(cfg, w, p, pciOrder).0, p.usb[i].device) {
        SeenPassIsTwinFree(cfg, w, p, pciOrder, i);
      }
    }
    if Inv(cfg, w) {
      ReconcileIsSound(cfg, w, p, pciOrder);
    }
  }

  // ----- the memory of holders -----

  /** The device each name stands for, as long as anything is remembered under
      the name. Two names may stand for the same device: one it had before. */
  type Roster = map<string, UsbDevice>

  ghost predicate DistinctNodes(roster: Roster) {
    && (forall s :: s in roster ==> roster[s].sysName == s && roster[s].node.Some?)
    && (forall s, s' :: s in roster && s' in roster && s != s' ==> roster[s].node != roster[s'].node)
  }

  ghost predicate Known(roster: Roster, d: UsbDevice) {
    d.sysName in roster && roster[d.sysName] == d
  }

  /** Every record is of the device its name stands for, and of the VM the
      manager remembers for that device. */
  ghost predicate Tracks(w: World, roster: Roster) {
    && DistinctNodes(roster)
    && (forall s :: s in w.persistent.ports ==> s in roster)
    && (forall s :: s in roster ==> Agreed(w, roster[s]))
    && (forall s :: s in w.observedUsb ==> s in roster && roster[s] == w.observedUsb[s])
  }

  lemma TracksDepends(w: World, w': World, roster: Roster)
    requires Tracks(w, roster)
    requires w'.persistent.ports == w.persistent.ports && w'.usbVms == w.usbVms && w'.observedUsb == w.observedUsb
    ensures Tracks(w', roster)
  {
    assert forall s :: s in roster ==> Agreed(w, roster[s]) ==> Agreed(w', roster[s]);
  }

  /** With every holder remembered, any move is safe and any detach is. */
  lemma TrackedIsMovable(cfg: Config, w: World, roster: Roster, d: UsbDevice, vm: string, f: AttachFaults)
    requires Tracks(w, roster) && Known(roster, d)
    ensures CanMove(cfg, w, d, vm) && MemoryRight(cfg, w, d)
    ensures !f.attach.Lost? ==> Settles(w, d, f)
  {
    assert Agreed(w, roster[d.sysName]);
  }

  lemma OwnStepTracks(w: World, w': World, roster: Roster, d: UsbDevice)
    requires Tracks(w, roster) && Known(roster, d) && TouchesOnly(w, w', d) && Keeps(w, w', d)
    ensures Tracks(w', roster)
  {
    var ports, ports' := w.persistent.ports, w'.persistent.ports;
    forall s | s in ports' ensures s in roster {
      if s != d.sysName {
        ElsewhereAt(ports, ports', d.sysName, s);
      }
    }
    forall s | s in roster ensures Agreed(w', roster[s]) {
      assert Agreed(w, roster[s]);
      if s != d.sysName {
        ElsewhereAt(ports, ports', d.sysName, s);
        ElsewhereAt(w.usbVms, w'.usbVms, d.node.value, roster[s].node.value);
      }
    }
  }

  lemma AttachTracks(cfg: Config, w: World, roster: Roster, x: RoutedUsb, requested: Option<string>, f: AttachFaults)
    requires Tracks(w, roster) && Known(roster, x.device) && AttachSaves(f)
    ensures Tracks(AttachOne(cfg, w, x.device, x.rule, requested, f).0, roster)
  {
    AttachFrame(cfg, w, x.device, x.rule, requested, f);
    AttachOwnKeeps(cfg, w, x.device, x.rule, requested, f);
    OwnStepTracks(w, AttachOne(cfg, w, x.device, x.rule, requested, f).0, roster, x.device);
  }

  lemma DetachTracks(cfg: Config, w: World, roster: Roster, d: UsbDevice, permanent: bool, f: DetachFaults)
    requires Tracks(w, roster) && Known(roster, d)
    ensures Tracks(DetachOne(cfg, w, d, permanent, f).0, roster)
  {
    DetachFrame(cfg, w, d, permanent, f);
    DetachKeepsChoice(cfg, w, d, permanent, f);
    ChoiceIsKept(w, DetachOne(cfg, w, d, permanent, f).0, d);
    OwnStepTracks(w, DetachOne(cfg, w, d, permanent, f).0, roster, d);
  }

  lemma {:induction false} ForgetAllTracks(cfg: Config, w: World, roster: Roster, order: seq<string>,
                                           scanned: map<string, UsbDevice>, fs: string -> ForgetFaults)
    requires Tracks(w, roster) && forall k :: !fs(k).saveFails
    ensures Tracks(ForgetAllGone(cfg, w, order, scanned, fs).0, roster)
    decreases |order|
  {
    if order != [] {
      var key := order[0];
      if key in scanned || key !in w.observedUsb {
        ForgetAllTracks(cfg, w, roster, order[1..], scanned, fs);
      } else {
        var (w1, outcome) := ForgetGone(cfg, w, key, w.observedUsb[key], fs(key));
        ForgetGoneShape(cfg, w, key, w.observedUsb[key], fs(key));
        ForgottenTracks(w, w1, roster, key, outcome);
        if outcome.Done? {
          ForgetAllTracks(cfg, w1, roster, order[1..], scanned, fs);
        }
      }
    }
  }

  lemma ForgottenTracks(w: World, w': World, roster: Roster, key: string, outcome: Outcome)
    requires Tracks(w, roster) && key in w.observedUsb && w'.observedUsb == w.observedUsb
    requires outcome.Done? ==>
               && w'.persistent.ports == Without(w.persistent.ports, key)
               && w'.usbVms == Without(w.usbVms, roster[key].node.value)
    requires outcome.Failed? ==> w'.persistent == w.persistent && w'.usbVms == w.usbVms
    ensures Tracks(w', roster)
  {
    forall s | s in roster ensures Agreed(w', roster[s]) {
      assert Agreed(w, roster[s]);
      assert s != key ==> roster[s].node != roster[key].node;
    }
  }

  lemma {:induction false} ScanMapIsKnown(roster: Roster, devices: seq<RoutedUsb>)
    requires AllKnown(roster, devices)
    ensures forall s :: s in ScanMap(devices) ==> s in roster && roster[s] == ScanMap(devices)[s]
  {
    if devices != [] {
      ScanMapIsKnown(roster, devices[..|devices| - 1]);
    }
  }

  lemma ObserveTracks(cfg: Config, w: World, roster: Roster, scanned: map<string, UsbDevice>, arrivals: seq<string>,
                      order: seq<string>, fs: string -> ForgetFaults)
    requires Tracks(w, roster) && (forall k :: !fs(k).saveFails)
    requires forall s :: s in scanned ==> s in roster && roster[s] == scanned[s]
    ensures Tracks(ObserveUsb(cfg, w, scanned, arrivals, order, fs).0, roster)
  {
    var announced := w.(log := w.log + Newcomers(w.observedUsb, arrivals));
    TracksDepends(w, announced, roster);
    ForgetAllTracks(cfg, announced, roster, order, scanned, fs);
    var w1 := ForgetAllGone(cfg, announced, order, scanned, fs).0;
    assert forall s :: s in roster ==> Agreed(w1, roster[s]) ==> Agreed(w1.(observedUsb := scanned), roster[s]);
  }

  // ----- runs -----

  /** Besides operations and VM lifecycles, devices come and go: a name stands
      for another device once nothing is remembered under it. */
  datatype Step = Op(event: Event) | Arrives(device: UsbDevice) | Departs(sysName: string)

  datatype Tracked = Tracked(world: World, roster: Roster)

  ghost function Advance(cfg: Config, t: Tracked, step: Step): Tracked {
    match step
    case Op(e) => t.(world := Next(cfg, t.world, e))
    case Arrives(d) => t.(roster := t.roster[d.sysName := d])
    case Departs(s) => t.(roster := Without(t.roster, s))
  }

  ghost predicate AllKnown(roster: Roster, devices: seq<RoutedUsb>) {
    forall i :: 0 <= i < |devices| ==> Known(roster, devices[i].device)
  }

  /** The VMs list what they take honestly, and confirm it. */
  ghost predicate HonestUsb(devices: seq<RoutedUsb>, fs: string -> AttachFaults) {
    forall i :: 0 <= i < |devices| ==>
                  var f := fs(devices[i].device.sysName);
                  HonestAttach(devices[i].device, f) && AttachSaves(f) && !f.attach.Lost?
  }

  /** No other name has a current record of a device still to come. */
  ghost predicate ApartFrom(w: World, all: seq<RoutedUsb>, m: nat) {
    forall i :: m <= i < |all| ==> NoTwin(w.guests, w.persistent.ports, all[i].device)
  }

  /** Operations name devices as they are, and where a device is attached no
      other name has a current record of it. A reconciliation sees to that by
      its observation, if everything on record was seen plugged in. The daemon
      keeps running. */
  ghost predicate Steady(cfg: Config, t: Tracked, step: Step) {
    match step
    case Op(Attach(d, _, _, f)) =>
      && Known(t.roster, d) && NoTwin(t.world.guests, t.world.persistent.ports, d)
      && HonestAttach(d, f) && AttachSaves(f) && !f.attach.Lost?
    case Op(Detach(d, _, f)) => Known(t.roster, d) && Identifiable(t.world, d) && DetachSaves(f)
    case Op(Suspend(devices, _, fs)) =>
      AllKnown(t.roster, devices) && forall i :: 0 <= i < |devices| ==>
                                                   Identifiable(t.world, devices[i].device)
                                                       && DetachSaves(fs(devices[i].device.sysName))
    case Op(Resume(devices, _, fs)) =>
      AllKnown(t.roster, devices) && DistinctDevices(devices) && HonestUsb(devices, fs)
          && ApartFrom(t.world, devices, 0)
    case Op(Observe(scanned, _, _, fs)) =>
      (forall s :: s in scanned ==> s in t.roster && t.roster[s] == scanned[s]) && forall k :: !fs(k).saveFails
    case Op(Reconciles(p, pciOrder)) =>
      && AllKnown(t.roster, p.usb) && DistinctDevices(p.usb) && HonestUsb(p.usb, p.attach) && PassSaves(p)
      && (Resumes(cfg, t.world, p, pciOrder) ==>
            Seen(t.world, p) || ApartFrom(Stages(cfg, t.world, p, pciOrder).0, p.usb, 0))
    case Op(DaemonRestarts) => false
    case Op(e) => Orderly(cfg, t.world, e)
    case Arrives(d) =>
      d.sysName !in t.roster && d.node.Some? && forall s :: s in t.roster ==> t.roster[s].node != d.node
    case Departs(s) => s !in t.world.persistent.ports && s !in t.world.observedUsb
  }

  ghost function RunSteps(cfg: Config, t: Tracked, steps: seq<Step>): Tracked {
    if steps == [] then t else Advance(cfg, RunSteps(cfg, t, steps[..|steps| - 1]), steps[|steps| - 1])
  }

  ghost predicate SteadyRun(cfg: Config, t: Tracked, steps: seq<Step>) {
    forall i :: 0 <= i < |steps| ==> Steady(cfg, RunSteps(cfg, t, steps[..i]), steps[i])
  }

  // ----- a pass, turn by turn -----

  lemma {:induction false} ResumeTracks(cfg: Config, w: World, roster: Roster, all: seq<RoutedUsb>,
                                        scope: Option<string>, fs: string -> AttachFaults, n: nat)
    requires Tracks(w, roster) && AllKnown(roster, all) && DistinctDevices(all) && HonestUsb(all, fs)
        && ApartFrom(w, all, 0) && n <= |all|
    ensures var w' := ResumeUsb(cfg, w, all[..n], scope, fs).0;
      Tracks(w', roster) && ApartFrom(w', all, n)
  {
    if n > 0 {
      var m := n - 1;
      assert all[..n][..m] == all[..m];
      ResumeTracks(cfg, w, roster, all, scope, fs, m);
      ResumeOneTracks(cfg, ResumeUsb(cfg, w, all[..m], scope, fs).0, roster, all, m, scope, fs(all[m].device.sysName));
    }
  }

  lemma ResumeOneTracks(cfg: Config, w: World, roster: Roster, all: seq<RoutedUsb>, m: nat, scope: Option<string>,
                        f: AttachFaults)
    requires Tracks(w, roster) && m < |all| && Known(roster, all[m].device) && DistinctDevices(all) && AttachSaves(f)
    requires ApartFrom(w, all, m)
    ensures var w' := ResumeOne(cfg, w, all[m], scope, f).0; Tracks(w', roster) && ApartFrom(w', all, m + 1)
  {
    var x := all[m];
    var w1 := AttachOne(cfg, w, x.device, x.rule, ResumeTarget(w, x), f).0;
    AttachTracks(cfg, w, roster, x, ResumeTarget(w, x), f);
    AttachFrame(cfg, w, x.device, x.rule, ResumeTarget(w, x), f);
    OthersStayApart(w, w1, all, m);
    DeferralIsNoMatter(w1, roster, all, m + 1);
  }

  lemma DeferralIsNoMatter(w: World, roster: Roster, all: seq<RoutedUsb>, m: nat)
    requires Tracks(w, roster) && ApartFrom(w, all, m)
    ensures Tracks(w.(deferred := true), roster) && ApartFrom(w.(deferred := true), all, m)
  {
    TracksDepends(w, w.(deferred := true), roster);
  }

  lemma OthersStayApart(w: World, w': World, all: seq<RoutedUsb>, m: nat)
    requires m < |all| && DistinctDevices(all) && TouchesOnly(w, w', all[m].device)
    requires ApartFrom(w, all, m)
    ensures ApartFrom(w', all, m + 1)
  {
    forall i | m < i < |all| ensures NoTwin(w'.guests, w'.persistent.ports, all[i].device) {
      OtherStaysApart(w, w', all[m].device, all[i].device);
    }
  }

  lemma TrackedResumeIsSafe(cfg: Config, w: World, roster: Roster, all: seq<RoutedUsb>, scope: Option<string>,
                            fs: string -> AttachFaults)
    requires Tracks(w, roster) && AllKnown(roster, all) && DistinctDevices(all) && HonestUsb(all, fs)
        && ApartFrom(w, all, 0)
    ensures SafeResume(cfg, w, all, scope, fs)
  {
    forall i | 0 <= i < |all| ensures SafeTurn(cfg, w, all, scope, fs, i) {
      ResumeTracks(cfg, w, roster, all, scope, fs, i);
      var w1 := ResumeUsb(cfg, w, all[..i], scope, fs).0;
      TrackedAttachIsSafe(cfg, w1, roster, all[i], ResumeTarget(w1, all[i]), fs(all[i].device.sysName));
    }
  }

  lemma TrackedAttachIsSafe(cfg: Config, w: World, roster: Roster, x: RoutedUsb, requested: Option<string>,
                            f: AttachFaults)
    requires Tracks(w, roster) && Known(roster, x.device) && NoTwin(w.guests, w.persistent.ports, x.device)
    requires HonestAttach(x.device, f) && AttachSaves(f) && !f.attach.Lost?
    ensures SafeAttach(cfg, w, x, requested, f)
  {
    forall vm ensures CanMove(cfg, w, x.device, vm) && Settles(w, x.device, f) {
      TrackedIsMovable(cfg, w, roster, x.device, vm, f);
    }
  }

  lemma {:induction false} SuspendTracks(cfg: Config, w: World, roster: Roster, all: seq<RoutedUsb>,
                                         scope: Option<string>, fs: string -> DetachFaults, n: nat)
    requires Tracks(w, roster) && AllKnown(roster, all) && n <= |all|
    requires forall i :: 0 <= i < |all| ==> Identifiable(w, all[i].device)
    ensures var w' := SuspendUsb(cfg, w, all[..n], scope, fs).0;
      Tracks(w', roster) && forall i :: 0 <= i < |all| ==> Identifiable(w', all[i].device)
  {
    if n > 0 {
      var m := n - 1;
      assert all[..n][..m] == all[..m];
      SuspendTracks(cfg, w, roster, all, scope, fs, m);
      var w1, d, f := SuspendUsb(cfg, w, all[..m], scope, fs).0, all[m].device, fs(all[m].device.sysName);
      var w2 := SuspendOne(cfg, w1, all[m], scope, f).0;
      DetachTracks(cfg, w1, roster, d, false, f);
      SuspendOneShrinks(cfg, w1, all[m], scope, f);
      forall i | 0 <= i < |all| ensures Identifiable(w2, all[i].device) {
        FewerTwins(w1, w2, all[i].device);
      }
    }
  }

  lemma TrackedSuspendIsSafe(cfg: Config, w: World, roster: Roster, all: seq<RoutedUsb>, scope: Option<string>,
                             fs: string -> DetachFaults)
    requires Tracks(w, roster) && AllKnown(roster, all)
    requires forall i :: 0 <= i < |all| ==> Identifiable(w, all[i].device) && DetachSaves(fs(all[i].device.sysName))
    ensures SafeSuspend(cfg, w, all, scope, fs)
  {
    forall i | 0 <= i < |all| ensures SafeLeave(cfg, w, all, scope, fs, i) {
      SuspendTracks(cfg, w, roster, all, scope, fs, i);
      TrackedDetachIsSafe(cfg, SuspendUsb(cfg, w, all[..i], scope, fs).0, roster, all[i].device,
                          fs(all[i].device.sysName));
    }
  }

  lemma TrackedDetachIsSafe(cfg: Config, w: World, roster: Roster, d: UsbDevice, f: DetachFaults)
    requires Tracks(w, roster) && Known(roster, d) && Identifiable(w, d) && DetachSaves(f)
    ensures SafeDetach(cfg, w, d, f)
  {
    assert Agreed(w, roster[d.sysName]);
  }

  // ----- a reconciliation -----

  lemma ReconcileTracks(cfg: Config, w: World, roster: Roster, p: Pass, pciOrder: seq<string>)
    requires Tracks(w, roster) && Steady(cfg, Tracked(w, roster), Op(Reconciles(p, pciOrder)))
    ensures Orderly(cfg, w, Reconciles(p, pciOrder)) && Tracks(Reconciled(cfg, w, p, pciOrder).0, roster)
  {
    var gated := Gated(cfg, w.(deferred := false), p.gate);
    GatedIsGateOnly(cfg, w.(deferred := false), p.gate);
    TracksDepends(w, gated, roster);
    ObserveAllTracks(cfg, gated, roster, p, pciOrder);
    var (observed, w1, w2) := Stages(cfg, w, p, pciOrder);
    if Observes(cfg, w, p, pciOrder) {
      if Resumes(cfg, w, p, pciOrder) {
        StageIsTwinFree(cfg, w, roster, p, pciOrder);
      }
      PassesTrack(cfg, observed, roster, p);
      SweptIsGateOnly(cfg, w2, p.sweepEnabled, p.sweep);
      TracksDepends(w2, HostPolicy.Swept(cfg, w2, p.sweepEnabled, p.sweep).0, roster);
    }
  }

  lemma StageIsTwinFree(cfg: Config, w: World, roster: Roster, p: Pass, pciOrder: seq<string>)
    requires Steady(cfg, Tracked(w, roster), Op(Reconciles(p, pciOrder))) && Resumes(cfg, w, p, pciOrder)
    ensures ApartFrom(Stages(cfg, w, p, pciOrder).0, p.usb, 0)
  {
    if Seen(w, p) {
      forall i | 0 <= i < |p.usb|
        ensures var w' := Stages(cfg, w, p, pciOrder).0; NoTwin(w'.guests, w'.persistent.ports, p.usb[i].device) {
        SeenPassIsTwinFree(cfg, w, p, pciOrder, i);
      }
    }
  }

  lemma ObserveAllTracks(cfg: Config, w: World, roster: Roster, p: Pass, pciOrder: seq<string>)
    requires Tracks(w, roster) && AllKnown(roster, p.usb) && PassSaves(p)
    ensures Tracks(ObserveAll(cfg, w, p, pciOrder).0, roster)
  {
    if !p.observeFails {
      ScanMapIsKnown(roster, p.usb);
      ObserveTracks(cfg, w, roster, ScanMap(p.usb), p.arrivals, p.order, p.forget);
      TracksDepends(ObserveUsb(cfg, w, ScanMap(p.usb), p.arrivals, p.order, p.forget).0,
                    ObserveAll(cfg, w, p, pciOrder).0, roster);
    }
  }

  lemma PassesTrack(cfg: Config, w: World, roster: Roster, p: Pass)
    requires Tracks(w, roster) && AllKnown(roster, p.usb) && DistinctDevices(p.usb) && HonestUsb(p.usb, p.attach)
    requires !p.usbScanFails ==> ApartFrom(w, p.usb, 0)
    ensures var w1 := PciPass(cfg, w, p).0;
      Tracks(UsbPass(cfg, w1, p).0, roster) && (!p.usbScanFails ==> SafeResume(cfg, w1, p.usb, None, p.attach))
  {
    var w1 := PciPass(cfg, w, p).0;
    if !p.pciScanFails {
      ResumePciKeepsBindings(cfg, p.groups, w, p.pci, None, p.pciFaults);
    }
    TracksDepends(w, w1, roster);
    if !p.usbScanFails {
      forall i | 0 <= i < |p.usb| ensures NoTwin(w1.guests, w1.persistent.ports, p.usb[i].device) {
        PciKeepsTwins(w, w1, p.usb[i].device);
      }
      ResumeTracks(cfg, w1, roster, p.usb, None, p.attach, |p.usb|);
      assert p.usb[..|p.usb|] == p.usb;
      TrackedResumeIsSafe(cfg, w1, roster, p.usb, None, p.attach);
    }
  }

  // ----- the theorem -----

  /** While the daemon keeps running, its memory makes every step an orderly
      one, and keeps up with it. */
  lemma SteadyIsOrderly(cfg: Config, w: World, roster: Roster, e: Event)
    requires Tracks(w, roster) && Steady(cfg, Tracked(w, roster), Op(e))
    ensures Orderly(cfg, w, e) && Tracks(Next(cfg, w, e), roster)
  {
    match e
    case Attach(d, rule, requested, f) =>
      TrackedAttachIsSafe(cfg, w, roster, RoutedUsb(d, rule), requested, f);
      AttachTracks(cfg, w, roster, RoutedUsb(d, rule), requested, f);
    case Detach(d, permanent, f) =>
      TrackedDetachIsSafe(cfg, w, roster, d, f);
      DetachTracks(cfg, w, roster, d, permanent, f);
    case Suspend(devices, scope, fs) =>
      TrackedSuspendIsSafe(cfg, w, roster, devices, scope, fs);
      SuspendTracks(cfg, w, roster, devices, scope, fs, |devices|);
      assert devices[..|devices|] == devices;
    case Resume(devices, scope, fs) =>
      TrackedResumeIsSafe(cfg, w, roster, devices, scope, fs);
      ResumeTracks(cfg, w, roster, devices, scope, fs, |devices|);
      assert devices[..|devices|] == devices;
    case Observe(scanned, arrivals, order, fs) => ObserveTracks(cfg, w, roster, scanned, arrivals, order, fs);
    case Reconciles(p, pciOrder) => ReconcileTracks(cfg, w, roster, p, pciOrder);
    case _ => OutsideTracks(cfg, w, roster, e);
  }

  lemma OutsideTracks(cfg: Config, w: World, roster: Roster, e: Event)
    requires Tracks(w, roster) && Outside(e)
    ensures Tracks(Next(cfg, w, e), roster)
  {
    OutsideKeepsMemory(cfg, w, e);
    TracksDepends(w, Next(cfg, w, e), roster);
  }

  lemma OperationIsSteady(cfg: Config, w: World, roster: Roster, e: Event)
    requires Owns(cfg, w) && Tracks(w, roster) && Steady(cfg, Tracked(w, roster), Op(e))
    ensures Owns(cfg, Next(cfg, w, e)) && Tracks(Next(cfg, w, e), roster)
  {
    SteadyIsOrderly(cfg, w, roster, e);
    OperationIsExclusive(cfg, w, e);
  }

  lemma AdvanceIsSteady(cfg: Config, t: Tracked, step: Step)
    requires Owns(cfg, t.world) && Tracks(t.world, t.roster) && Steady(cfg, t, step)
    ensures var t' := Advance(cfg, t, step); Owns(cfg, t'.world) && Tracks(t'.world, t'.roster)
  {
    match step
    case Op(e) => OperationIsSteady(cfg, t.world, t.roster, e);
    case Arrives(d) =>
    case Departs(s) =>
  }

  lemma {:induction false} SteadyOwnershipStays(cfg: Config, t: Tracked, steps: seq<Step>)
    requires Owns(cfg, t.world) && Tracks(t.world, t.roster) && SteadyRun(cfg, t, steps)
    ensures var t' := RunSteps(cfg, t, steps); Owns(cfg, t'.world) && Tracks(t'.world, t'.roster)
  {
    if steps != [] {
      var front := steps[..|steps| - 1];
      forall i | 0 <= i < |front| ensures Steady(cfg, RunSteps(cfg, t, front[..i]), front[i]) {
        assert front[..i] == steps[..i];
      }
      SteadyOwnershipStays(cfg, t, front);
      AdvanceIsSteady(cfg, RunSteps(cfg, t, front), steps[|steps| - 1]);
    }
  }

  /** From an empty start, a daemon that keeps running never shows a device at
      two places, if it is not asked to attach one that is still on record
      under another name. */
  lemma SteadilyHeldAtMostOnce(cfg: Config, t: Tracked, steps: seq<Step>, vid: Option<string>, pid: Option<string>)
    requires EmptyStart(cfg, t.world) && t.world.observedUsb == map[] && DistinctNodes(t.roster)
        && SteadyRun(cfg, t, steps)
    ensures ExclusivelyHeld(RunSteps(cfg, t, steps).world.guests, vid, pid)
  {
    SteadyOwnershipStays(cfg, t, steps);
    OwnsMeansExclusive(cfg, RunSteps(cfg, t, steps).world);
  }
}
