/**
 The PCI part of the VM argument renderer: every routed function of one VM is
 quarantined with its IOMMU group and then emitted, each address once however
 the groups overlap.
 */
module VmmArgs {
  import opened Prelude
  import opened PciRules
  import opened PciSpec

  datatype Arg = IsolateHotplug | Vfio(address: string, removable: bool)

  /** The order of effects: functions bound to vfio-pci and functions emitted. */
  datatype Step = Bound(address: string) | Emitted(address: string)

  datatype ArgsError = NoRules | NoDevices | GroupError | BindError

  ghost function QuarantineOf(groups: Groups, address: string): seq<string> {
    if groups(address).Ok? then Quarantine(groups(address).value, address) else []
  }

  ghost function PassthroughOf(groups: Groups, x: Routed): seq<string> {
    Passthrough(x.rule, QuarantineOf(groups, x.device.address), x.device.address)
  }

  /** Device i is the first that passes this address through. */
  ghost predicate FirstEmitter(groups: Groups, devices: seq<Routed>, i: int, address: string) {
    && 0 <= i < |devices|
    && address in PassthroughOf(groups, devices[i])
    && forall j :: 0 <= j < i ==> address !in PassthroughOf(groups, devices[j])
  }

  /** Every argument comes from the first device passing its address, with
      that device's choice of bus, and no address appears twice. */
  ghost predicate ArgsFrom(groups: Groups, devices: seq<Routed>, args: seq<Arg>) {
    && (forall k :: 0 <= k < |args| ==> args[k].Vfio? && ArgFrom(groups, devices, args[k]))
    && (forall k, l :: 0 <= k < l < |args| ==> args[k].address != args[l].address)
  }

  ghost predicate ArgFrom(groups: Groups, devices: seq<Routed>, arg: Arg)
    requires arg.Vfio?
  {
    exists i :: FirstEmitter(groups, devices, i, arg.address) && arg.removable == !devices[i].rule.useRootBus
  }

  ghost predicate Emits(args: seq<Arg>, address: string) {
    exists k :: 0 <= k < |args| && args[k].Vfio? && args[k].address == address
  }

  ghost predicate PassedBySome(groups: Groups, devices: seq<Routed>, address: string) {
    exists i :: 0 <= i < |devices| && address in PassthroughOf(groups, devices[i])
  }

  ghost predicate BoundBefore(trace: seq<Step>, i: nat, address: string)
    requires i <= |trace|
  {
    exists j :: 0 <= j < i && trace[j] == Bound(address)
  }

  /** No address is emitted before its whole group was bound. */
  ghost predicate EmitsQuarantined(groups: Groups, trace: seq<Step>) {
    forall i :: 0 <= i < |trace| && trace[i].Emitted? ==>
                  forall m :: m in QuarantineOf(groups, trace[i].address) ==> BoundBefore(trace, i, m)
  }

  lemma EmitsQuarantinedExtends(groups: Groups, trace: seq<Step>, step: Step)
    requires EmitsQuarantined(groups, trace)
    requires step.Emitted? ==> forall m :: m in QuarantineOf(groups, step.address) ==> BoundBefore(trace, |trace|, m)
    ensures EmitsQuarantined(groups, trace + [step])
    ensures forall m :: BoundBefore(trace, |trace|, m) ==> BoundBefore(trace + [step], |trace| + 1, m)
    ensures step.Bound? ==> BoundBefore(trace + [step], |trace| + 1, step.address)
  {
    var longer := trace + [step];
    forall i, m | 0 <= i <= |trace| && BoundBefore(trace, i, m)
      ensures BoundBefore(longer, i, m) && BoundBefore(longer, |longer|, m) {
      var j :| 0 <= j < i && trace[j] == Bound(m);
      assert longer[j] == Bound(m);
    }
    if step.Bound? {
      assert longer[|trace|] == step;
    }
  }

  method BindQuarantine(quarantine: seq<string>, groups: Groups, bindFails: set<string>, bound: set<string>,
                        ghost trace: seq<Step>)
    returns (ok: bool, bound': set<string>, ghost trace': seq<Step>)
    requires EmitsQuarantined(groups, trace)
    requires forall a :: a in bound ==> BoundBefore(trace, |trace|, a)
    ensures EmitsQuarantined(groups, trace') && trace <= trace'
    ensures forall i :: |trace| <= i < |trace'| ==> trace'[i].Bound?
    ensures ok ==> forall a :: a in bound' ==> BoundBefore(trace', |trace'|, a)
    ensures ok ==> bound' == bound + set a | a in quarantine
    ensures ok <==> forall a :: a in quarantine && a !in bound ==> a !in bindFails
  {
    bound', trace', ok := bound, trace, true;
    for i := 0 to |quarantine|
      invariant EmitsQuarantined(groups, trace') && trace <= trace'
      invariant forall i :: |trace| <= i < |trace'| ==> trace'[i].Bound?
      invariant forall a :: a in bound' ==> BoundBefore(trace', |trace'|, a)
      invariant bound' == bound + set a | a in quarantine[..i]
      invariant forall a :: a in quarantine[..i] && a !in bound ==> a !in bindFails
    {
      var address := quarantine[i];
      assert quarantine[..i + 1] == quarantine[..i] + [address];
      if address in bound' {
        continue;
      }
      bound' := bound' + {address};
      if address in bindFails {
        ok := false;
        return;
      }
      EmitsQuarantinedExtends(groups, trace', Bound(address));
      trace' := trace' + [Bound(address)];
    }
    assert quarantine[..|quarantine|] == quarantine;
  }

  /** One device's functions, those not emitted before. */
  method EmitPassthrough(groups: Groups, devices: seq<Routed>, n: nat, passthrough: seq<string>, args: seq<Arg>,
                         emitted: set<string>, ghost trace: seq<Step>)
    returns (args': seq<Arg>, emitted': set<string>, ghost trace': seq<Step>)
    requires n < |devices| && passthrough == PassthroughOf(groups, devices[n])
    requires ArgsFrom(groups, devices, args)
    requires forall a :: Emits(args, a) <==> PassedBySome(groups, devices[..n], a)
    requires EmitsQuarantined(groups, trace)
    requires forall a, m :: a in passthrough && m in QuarantineOf(groups, a) ==> BoundBefore(trace, |trace|, m)
    requires forall a :: Emitted(a) in trace <==> Emits(args, a)
    requires forall a :: a in emitted <==> Emits(args, a)
    ensures forall a :: a in emitted' <==> Emits(args', a)
    ensures ArgsFrom(groups, devices, args')
    ensures forall a :: Emits(args', a) <==> PassedBySome(groups, devices[..n + 1], a)
    ensures EmitsQuarantined(groups, trace') && trace <= trace'
    ensures forall a :: Emitted(a) in trace' <==> Emits(args', a)
  {
    args', emitted', trace' := args, emitted, trace;
    for i := 0 to |passthrough|
      invariant ArgsFrom(groups, devices, args')
      invariant forall a :: Emits(args', a) <==> Emits(args, a) || a in passthrough[..i]
      invariant EmitsQuarantined(groups, trace') && trace <= trace'
      invariant forall m :: BoundBefore(trace, |trace|, m) ==> BoundBefore(trace', |trace'|, m)
      invariant forall a :: Emitted(a) in trace' <==> Emits(args', a)
      invariant forall a :: a in emitted' <==> Emits(args', a)
    {
      var address := passthrough[i];
      assert passthrough[..i + 1] == passthrough[..i] + [address];
      if address in emitted' {
        continue;
      }
      emitted' := emitted' + {address};
      var arg := Vfio(address, !devices[n].rule.useRootBus);
      assert FirstEmitter(groups, devices, n, address) by {
        forall j | 0 <= j < n ensures address !in PassthroughOf(groups, devices[j]) {
          assert devices[..n][j] == devices[j];
          assert !PassedBySome(groups, devices[..n], address);
        }
      }
      EmitsAppend(args', arg);
      EmitsQuarantinedExtends(groups, trace', Emitted(address));
      args' := args' + [arg];
      trace' := trace' + [Emitted(address)];
    }
    assert passthrough[..|passthrough|] == passthrough;
    forall a
      ensures PassedBySome(groups, devices[..n + 1], a) <==> PassedBySome(groups, devices[..n], a) || a in passthrough
    {
      PassedByOneMore(groups, devices, n, a);
    }
  }

  lemma EmitsAppend(args: seq<Arg>, arg: Arg)
    requires arg.Vfio?
    ensures forall a :: Emits(args + [arg], a) <==> Emits(args, a) || a == arg.address
  {
    forall a ensures Emits(args + [arg], a) <==> Emits(args, a) || a == arg.address {
      if Emits(args, a) {
        var k :| 0 <= k < |args| && args[k].Vfio? && args[k].address == a;
        assert (args + [arg])[k] == args[k];
      }
      if a == arg.address {
        assert (args + [arg])[|args|] == arg;
      }
    }
  }

  lemma PassedByOneMore(groups: Groups, devices: seq<Routed>, n: nat, a: string)
    requires n < |devices|
    ensures PassedBySome(groups, devices[..n + 1], a) <==>
              PassedBySome(groups, devices[..n], a) || a in PassthroughOf(groups, devices[n])
  {
    if PassedBySome(groups, devices[..n], a) {
      var i :| 0 <= i < n && a in PassthroughOf(groups, devices[..n][i]);
      assert devices[..n + 1][i] == devices[..n][i];
    }
    if a in PassthroughOf(groups, devices[n]) {
      assert devices[..n + 1][n] == devices[n];
    }
    if PassedBySome(groups, devices[..n + 1], a) {
      var i :| 0 <= i < n + 1 && a in PassthroughOf(groups, devices[..n + 1][i]);
      if i < n {
        assert devices[..n][i] == devices[..n + 1][i];
      }
    }
  }

  /** The function's group can be read. */
  ghost predicate Readable(groups: Groups, x: Routed) {
    groups(x.device.address).Ok?
  }

  /** The group can be read and every member of it can be bound. */
  ghost predicate Quarantinable(groups: Groups, bindFails: set<string>, x: Routed) {
    Readable(groups, x) && forall a :: a in QuarantineOf(groups, x.device.address) ==> a !in bindFails
  }

  /** The first function that cannot be quarantined is function i. */
  ghost predicate FirstStop(groups: Groups, bindFails: set<string>, devices: seq<Routed>, i: nat) {
    && i < |devices| && !Quarantinable(groups, bindFails, devices[i])
    && forall j :: 0 <= j < i ==> Quarantinable(groups, bindFails, devices[j])
  }

  /** The arguments for one VM, given the routed functions that target it.
      There are arguments exactly if every function can be quarantined and, where
      functions are required, there is a rule and a function; the error tells
      what stopped at the first function that cannot. Each address is emitted
      exactly once, the emitted set is the union of what the devices pass
      through, and nothing is emitted before its group is bound. */
  method PciArgs(devices: seq<Routed>, groups: Groups, bindFails: set<string>, hasRules: bool, requirePci: bool)
    returns (r: Result<seq<Arg>, ArgsError>, ghost trace: seq<Step>)
    requires ConsistentGroups(groups)
    ensures EmitsQuarantined(groups, trace)
    ensures r.Ok? ==> exists args ::
              && r.value == (if hasRules then [IsolateHotplug] else []) + args
              && ArgsFrom(groups, devices, args)
              && (forall a :: Emits(args, a) <==> PassedBySome(groups, devices, a))
              && (forall a :: Emitted(a) in trace <==> Emits(args, a))
    ensures r == Err(NoRules) <==> requirePci && !hasRules
    ensures r == Err(NoDevices) <==> requirePci && hasRules && devices == []
    ensures r.Ok? <==>
              && (requirePci ==> hasRules && devices != [])
              && forall i :: 0 <= i < |devices| ==> Quarantinable(groups, bindFails, devices[i])
    ensures r == Err(GroupError) ==>
              exists i: nat :: FirstStop(groups, bindFails, devices, i) && !Readable(groups, devices[i])
    ensures r == Err(BindError) ==>
              exists i: nat :: FirstStop(groups, bindFails, devices, i) && Readable(groups, devices[i])
  {
    trace := [];
    if requirePci && !hasRules {
      return Err(NoRules), trace;
    }
    if requirePci && devices == [] {
      return Err(NoDevices), trace;
    }
    var bound: set<string> := {};
    var args: seq<Arg> := [];
    var emitted: set<string> := {};
    for n := 0 to |devices|
      invariant ArgsFrom(groups, devices, args)
      invariant forall a :: Emits(args, a) <==> PassedBySome(groups, devices[..n], a)
      invariant EmitsQuarantined(groups, trace)
      invariant forall a :: a in bound ==> BoundBefore(trace, |trace|, a)
      invariant forall a :: a in bound ==> a !in bindFails
      invariant forall i :: 0 <= i < n ==> Quarantinable(groups, bindFails, devices[i])
      invariant forall a :: Emitted(a) in trace <==> Emits(args, a)
      invariant forall a :: a in emitted <==> Emits(args, a)
    {
      var x := devices[n];
      var group := groups(x.device.address);
      if group.Err? {
        assert FirstStop(groups, bindFails, devices, n);
        return Err(GroupError), trace;
      }
      var quarantine := Quarantine(group.value, x.device.address);
      var ok, bound', trace' := BindQuarantine(quarantine, groups, bindFails, bound, trace);
      if !ok {
        assert FirstStop(groups, bindFails, devices, n);
        return Err(BindError), trace';
      }
      StepsKeepEmitted(trace, trace');
      bound, trace := bound', trace';
      ghost var before := trace;
      args, emitted, trace := EmitPassthrough(groups, devices, n, Passthrough(x.rule, quarantine, x.device.address),
                                              args, emitted, trace);
      BoundStays(before, trace);
    }
    assert devices[..|devices|] == devices;
    r := Ok((if hasRules then [IsolateHotplug] else []) + args);
  }

  lemma StepsKeepEmitted(trace: seq<Step>, trace': seq<Step>)
    requires trace <= trace' && forall i :: |trace| <= i < |trace'| ==> trace'[i].Bound?
    ensures forall a :: Emitted(a) in trace' <==> Emitted(a) in trace
  {
  }

  lemma BoundStays(trace: seq<Step>, trace': seq<Step>)
    requires trace <= trace'
    ensures forall a :: BoundBefore(trace, |trace|, a) ==> BoundBefore(trace', |trace'|, a)
  {
  }
}
