/**
 Rule matching for PCI devices: which rule wins, the order number it hands
 out, and the list of routed devices sorted by that number.
 */
module PciRules {
  import opened Prelude
  import opened Sorting

  datatype PciDevice = PciDevice(address: string)

  /** A selector is whatever the configuration language makes of it. */
  type Selector = PciDevice -> bool

  datatype PciRule = PciRule(
    enabled: bool,
    allow: seq<Selector>,
    deny: seq<Selector>,
    targetVm: Option<string>,
    skipOnSuspend: bool,
    iommuAddAll: bool,
    iommuSkipIfShared: bool,
    useRootBus: bool)

  datatype PciMatch = PciMatch(
    targetVm: string,
    skipOnSuspend: bool,
    iommuAddAll: bool,
    iommuSkipIfShared: bool,
    useRootBus: bool,
    order: nat)

  function FirstHit(selectors: seq<Selector>, device: PciDevice): (r: Option<nat>)
    ensures r.Some? ==> r.value < |selectors| && selectors[r.value](device)
    ensures forall k :: 0 <= k < (if r.Some? then r.value else |selectors|) ==> !selectors[k](device)
  {
    if selectors == [] then None
    else if selectors[0](device) then Some(0)
    else match FirstHit(selectors[1..], device)
      case None =>
        assert forall k :: 1 <= k < |selectors| ==> selectors[k] == selectors[1..][k - 1];
        None
      case Some(k) =>
        assert forall j :: 1 <= j <= k ==> selectors[j] == selectors[1..][j - 1];
        Some(k + 1)
  }

  predicate AnyMatches(selectors: seq<Selector>, device: PciDevice) {
    exists k :: 0 <= k < |selectors| && selectors[k](device)
  }

  /** Enabled, allowed, not denied and with somewhere to go. */
  predicate Wins(rule: PciRule, device: PciDevice) {
    && rule.enabled
    && AnyMatches(rule.allow, device)
    && !AnyMatches(rule.deny, device)
    && rule.targetVm.Some?
  }

  /** How far the counter moves in one rule: it stops at the first matching
      entry even when the rule does not win. */
  function Steps(rule: PciRule, device: PciDevice): nat {
    if !rule.enabled then 0
    else match FirstHit(rule.allow, device)
      case Some(k) => k + 1
      case None => |rule.allow|
  }

  function OrderAfter(rules: seq<PciRule>, i: nat, device: PciDevice): nat
    requires i <= |rules|
  {
    if i == 0 then 0 else OrderAfter(rules, i - 1, device) + Steps(rules[i - 1], device)
  }

  /** The position of allow entry k of rule i among all allow entries of enabled rules, from 1. */
  function Position(rules: seq<PciRule>, i: nat, k: nat): nat
    requires i < |rules|
  {
    EntriesBefore(rules, i) + k + 1
  }

  function EntriesBefore(rules: seq<PciRule>, i: nat): nat
    requires i <= |rules|
  {
    if i == 0 then 0
    else EntriesBefore(rules, i - 1) + if rules[i - 1].enabled then |rules[i - 1].allow| else 0
  }

  ghost predicate IsWinner(rules: seq<PciRule>, device: PciDevice, i: nat) {
    i < |rules| && Wins(rules[i], device) && forall j :: 0 <= j < i ==> !Wins(rules[j], device)
  }

  ghost predicate MatchesRule(rules: seq<PciRule>, device: PciDevice, i: nat, m: PciMatch) {
    && IsWinner(rules, device, i)
    && var rule := rules[i];
       m == PciMatch(rule.targetVm.value, rule.skipOnSuspend, rule.iommuAddAll, rule.iommuSkipIfShared,
                     rule.useRootBus, OrderAfter(rules, i + 1, device))
  }

  /** The first winning rule decides, whatever comes after it. */
  method PciRuleFor(rules: seq<PciRule>, device: PciDevice) returns (r: Option<PciMatch>)
    ensures r == MatchFrom(rules, device, 0)
    ensures r.None? <==> forall i :: 0 <= i < |rules| ==> !Wins(rules[i], device)
    ensures r.Some? ==> exists i: nat :: MatchesRule(rules, device, i, r.value)
  {
    var order := 0;
    MatchFromWins(rules, device, 0);
    for i := 0 to |rules|
      invariant order == OrderAfter(rules, i, device)
      invariant forall j :: 0 <= j < i ==> !Wins(rules[j], device)
      invariant MatchFrom(rules, device, 0) == MatchFrom(rules, device, i)
    {
      var rule := rules[i];
      if !rule.enabled {
        continue;
      }
      var found := false;
      ghost var before := order;
      for k := 0 to |rule.allow|
        invariant !found && order == before + k
        invariant forall j :: 0 <= j < k ==> !rule.allow[j](device)
      {
        order := order + 1;
        if rule.allow[k](device) {
          found := true;
          break;
        }
      }
      assert order == OrderAfter(rules, i + 1, device);
      if AnyMatches(rule.deny, device) {
        found := false;
      }
      if found && rule.targetVm.Some? {
        r := Some(PciMatch(rule.targetVm.value, rule.skipOnSuspend, rule.iommuAddAll, rule.iommuSkipIfShared,
                           rule.useRootBus, order));
        assert MatchesRule(rules, device, i, r.value);
        return;
      }
    }
    r := None;
  }

  /** The verdict as a function, for use in specifications. */
  function MatchFrom(rules: seq<PciRule>, device: PciDevice, i: nat): Option<PciMatch>
    requires i <= |rules|
    decreases |rules| - i
  {
    if i == |rules| then None
    else if Wins(rules[i], device) then
      var rule := rules[i];
      Some(PciMatch(rule.targetVm.value, rule.skipOnSuspend, rule.iommuAddAll, rule.iommuSkipIfShared,
                    rule.useRootBus, OrderAfter(rules, i + 1, device)))
    else MatchFrom(rules, device, i + 1)
  }

  lemma {:induction false} MatchFromWins(rules: seq<PciRule>, device: PciDevice, i: nat)
    requires i <= |rules|
    requires forall j :: 0 <= j < i ==> !Wins(rules[j], device)
    ensures var m := MatchFrom(rules, device, i);
      && (m.None? <==> forall j :: 0 <= j < |rules| ==> !Wins(rules[j], device))
      && (m.Some? ==> exists j: nat :: MatchesRule(rules, device, j, m.value))
    decreases |rules| - i
  {
    if i < |rules| {
      if Wins(rules[i], device) {
        assert MatchesRule(rules, device, i, MatchFrom(rules, device, i).value);
      } else {
        MatchFromWins(rules, device, i + 1);
      }
    }
  }

  /** No enabled rule before i stopped the counter early. */
  ghost predicate CountsFully(rules: seq<PciRule>, device: PciDevice, i: nat)
    requires i <= |rules|
  {
    forall j :: 0 <= j < i && rules[j].enabled ==>
                  match FirstHit(rules[j].allow, device)
                  case None => true
                  case Some(k) => k == |rules[j].allow| - 1
  }

  lemma {:induction false} OrderVersusEntries(rules: seq<PciRule>, device: PciDevice, i: nat)
    requires i <= |rules|
    ensures OrderAfter(rules, i, device) <= EntriesBefore(rules, i)
    ensures OrderAfter(rules, i, device) == EntriesBefore(rules, i) <==> CountsFully(rules, device, i)
  {
    if i > 0 {
      OrderVersusEntries(rules, device, i - 1);
      assert CountsFully(rules, device, i) <==>
             (&& CountsFully(rules, device, i - 1)
              && Steps(rules[i - 1], device) == if rules[i - 1].enabled then |rules[i - 1].allow| else 0);
    }
  }

  /** The order number never exceeds the winning entry's global position, and
      equals it exactly when every earlier enabled rule that saw a match saw
      it at its last allow entry. */
  lemma OrderVersusPosition(rules: seq<PciRule>, device: PciDevice, i: nat, k: nat)
    requires IsWinner(rules, device, i) && FirstHit(rules[i].allow, device) == Some(k)
    ensures OrderAfter(rules, i + 1, device) <= Position(rules, i, k)
    ensures OrderAfter(rules, i + 1, device) == Position(rules, i, k) <==> CountsFully(rules, device, i)
  {
    OrderVersusEntries(rules, device, i);
  }

  lemma {:induction false} EntriesMonotone(rules: seq<PciRule>, i: nat, j: nat)
    requires i < j <= |rules| && rules[i].enabled
    ensures EntriesBefore(rules, i) + |rules[i].allow| <= EntriesBefore(rules, j)
  {
    if i + 1 < j {
      EntriesMonotone(rules, i, j - 1);
    }
  }

  /** Global positions compare as (rule, entry) pairs do. */
  lemma PositionIsLexicographic(rules: seq<PciRule>, i: nat, k: nat, i': nat, k': nat)
    requires i < |rules| && rules[i].enabled && k < |rules[i].allow|
    requires i' < |rules| && rules[i'].enabled && k' < |rules[i'].allow|
    ensures Position(rules, i, k) < Position(rules, i', k') <==> i < i' || (i == i' && k < k')
  {
    if i < i' {
      EntriesMonotone(rules, i, i');
    } else if i' < i {
      EntriesMonotone(rules, i', i);
    }
  }

  // ----- the sorted list of routed devices -----

  datatype Routed = Routed(device: PciDevice, rule: PciMatch)

  predicate Before(left: Routed, right: Routed) {
    left.rule.order < right.rule.order
    || (left.rule.order == right.rule.order && Leq(left.device.address, right.device.address))
  }

  lemma BeforeIsPreorder()
    ensures TotalPreorder(Before)
  {
    forall x: Routed, y: Routed ensures Before(x, y) || Before(y, x) {
      LeqTotal(x.device.address, y.device.address);
    }
    forall x: Routed, y: Routed, z: Routed | Before(x, y) && Before(y, z) ensures Before(x, z) {
      if x.rule.order == z.rule.order {
        LeqTransitive(x.device.address, y.device.address, z.device.address);
      }
    }
  }

  /** Reading a group may fail; a device without one has no group members. */
  datatype ReadError = Unreadable

  type Groups = string -> Result<seq<string>, ReadError>

  function Collect(scan: seq<PciDevice>, rules: seq<PciRule>, groups: Groups): Result<seq<Routed>, ReadError> {
    if scan == [] then Ok([])
    else
      var front := Collect(scan[..|scan| - 1], rules, groups);
      var device := scan[|scan| - 1];
      match (front, MatchFrom(rules, device, 0))
      case (Err(_), _) => Err(Unreadable)
      case (Ok(_), None) => front
      case (Ok(list), Some(m)) =>
        if !m.iommuSkipIfShared then Ok(list + [Routed(device, m)])
        else match groups(device.address)
          case Err(_) => Err(Unreadable)
          case Ok(group) => if |group| > 1 then front else Ok(list + [Routed(device, m)])
  }

  function PciDevices(scan: seq<PciDevice>, rules: seq<PciRule>, groups: Groups): Result<seq<Routed>, ReadError> {
    match Collect(scan, rules, groups)
    case Ok(list) => Ok(Sort(list, Before))
    case Err(_) => Err(Unreadable)
  }

  method ListPciDevices(scan: seq<PciDevice>, rules: seq<PciRule>, groups: Groups)
    returns (r: Result<seq<Routed>, ReadError>)
    ensures r == PciDevices(scan, rules, groups)
    ensures r.Ok? ==> Sorted(r.value, Before)
    ensures r.Ok? ==> forall x :: x in r.value <==> Listed(scan, rules, groups, x)
  {
    var devices: seq<Routed> := [];
    for i := 0 to |scan|
      invariant Collect(scan[..i], rules, groups) == Ok(devices)
    {
      assert scan[..i + 1][..i] == scan[..i];
      var m := PciRuleFor(rules, scan[i]);
      if m.None? {
        continue;
      }
      if m.value.iommuSkipIfShared {
        var group := groups(scan[i].address);
        if group.Err? {
          CollectFails(scan, i + 1, rules, groups);
          return Err(Unreadable);
        }
        if |group.value| > 1 {
          continue;
        }
      }
      devices := devices + [Routed(scan[i], m.value)];
    }
    assert scan[..|scan|] == scan;
    BeforeIsPreorder();
    SortSorts(devices, Before);
    CollectLists(scan, rules, groups);
    r := Ok(Sort(devices, Before));
  }

  lemma {:induction false} CollectFails(scan: seq<PciDevice>, i: nat, rules: seq<PciRule>, groups: Groups)
    requires i <= |scan| && Collect(scan[..i], rules, groups).Err?
    ensures Collect(scan, rules, groups).Err?
    decreases |scan|
  {
    if i < |scan| {
      assert scan[..|scan| - 1][..i] == scan[..i];
      CollectFails(scan[..|scan| - 1], i, rules, groups);
    } else {
      assert scan[..i] == scan;
    }
  }

  /** What the list holds: the scanned devices some rule routes, minus those
      whose rule refuses a shared IOMMU group. */
  ghost predicate Listed(scan: seq<PciDevice>, rules: seq<PciRule>, groups: Groups, x: Routed) {
    && x.device in scan
    && MatchFrom(rules, x.device, 0) == Some(x.rule)
    && (x.rule.iommuSkipIfShared ==> groups(x.device.address).Ok? && |groups(x.device.address).value| <= 1)
  }

  lemma {:induction false} CollectLists(scan: seq<PciDevice>, rules: seq<PciRule>, groups: Groups)
    requires Collect(scan, rules, groups).Ok?
    ensures forall x :: x in Collect(scan, rules, groups).value <==> Listed(scan, rules, groups, x)
  {
    if scan != [] {
      CollectLists(scan[..|scan| - 1], rules, groups);
      assert scan == scan[..|scan| - 1] + [scan[|scan| - 1]];
    }
  }

  /** When no device stopped the counter early, the list is in rule order:
      by winning rule, then by allow entry, then by address. */
  lemma ListIsInPriorityOrder(scan: seq<PciDevice>, rules: seq<PciRule>, groups: Groups, a: nat, b: nat,
                              i: nat, k: nat, i': nat, k': nat)
    requires PciDevices(scan, rules, groups).Ok?
    requires a < b < |PciDevices(scan, rules, groups).value|
    requires var left := PciDevices(scan, rules, groups).value[a].device;
      IsWinner(rules, left, i) && FirstHit(rules[i].allow, left) == Some(k) && CountsFully(rules, left, i)
    requires var right := PciDevices(scan, rules, groups).value[b].device;
      IsWinner(rules, right, i') && FirstHit(rules[i'].allow, right) == Some(k') && CountsFully(rules, right, i')
    ensures var list := PciDevices(scan, rules, groups).value;
      i < i' || (i == i' && (k < k' || (k == k' && Leq(list[a].device.address, list[b].device.address))))
  {
    var list := PciDevices(scan, rules, groups).value;
    var collected := Collect(scan, rules, groups).value;
    BeforeIsPreorder();
    SortSorts(collected, Before);
    CollectLists(scan, rules, groups);
    assert list[a] in collected && list[b] in collected;
    assert Before(list[a], list[b]);
    OrderIsWinnersOrder(rules, list[a], i, k);
    OrderIsWinnersOrder(rules, list[b], i', k');
    PositionIsLexicographic(rules, i, k, i', k');
    PositionIsLexicographic(rules, i', k', i, k);
  }

  lemma OrderIsWinnersOrder(rules: seq<PciRule>, x: Routed, i: nat, k: nat)
    requires MatchFrom(rules, x.device, 0) == Some(x.rule)
    requires IsWinner(rules, x.device, i) && FirstHit(rules[i].allow, x.device) == Some(k)
    requires CountsFully(rules, x.device, i)
    ensures x.rule.order == Position(rules, i, k)
  {
    MatchFromWins(rules, x.device, 0);
    var j: nat :| MatchesRule(rules, x.device, j, x.rule);
    assert i == j;
    OrderVersusPosition(rules, x.device, i, k);
  }

  lemma OneMoreCollected(scan: seq<PciDevice>, d: PciDevice, rules: seq<PciRule>, groups: Groups, m: PciMatch)
    requires Collect(scan, rules, groups).Ok? && MatchFrom(rules, d, 0) == Some(m) && !m.iommuSkipIfShared
    ensures Collect(scan + [d], rules, groups) == Ok(Collect(scan, rules, groups).value + [Routed(d, m)])
  {
    assert (scan + [d])[..|scan + [d]| - 1] == scan;
  }

  lemma TwoListed(rules: seq<PciRule>, groups: Groups, x: PciDevice, y: PciDevice, m: PciMatch, n: PciMatch)
    requires MatchFrom(rules, x, 0) == Some(m) && MatchFrom(rules, y, 0) == Some(n)
    requires !m.iommuSkipIfShared && !n.iommuSkipIfShared && m.order < n.order
    ensures PciDevices([y, x], rules, groups) == Ok([Routed(x, m), Routed(y, n)])
  {
    var rx, ry := Routed(x, m), Routed(y, n);
    OneMoreCollected([], y, rules, groups, n);
    OneMoreCollected([y], x, rules, groups, m);
    assert [] + [y] == [y] && [y] + [x] == [y, x];
    assert Collect([y], rules, groups).value == [] + [ry] == [ry];
    assert Collect([y, x], rules, groups).value == [ry] + [rx] == [ry, rx];
    assert [ry, rx][1..] == [rx] && [rx][1..] == [];
    assert Sort([rx], Before) == [rx];
    assert !Before(ry, rx);
    assert Sort([ry, rx], Before) == Insert(ry, [rx], Before) == [rx, ry];
  }

  /** Without that condition the list can put a lower-priority rule first: a
      device denied by the first rule stops its counter there and then wins
      the second rule with a smaller number than the first rule's own device. */
  lemma PriorityCanInvert()
    ensures exists rules: seq<PciRule>, scan: seq<PciDevice>, groups: Groups, list: seq<Routed> ::
              && PciDevices(scan, rules, groups) == Ok(list) && |list| == 2
              && IsWinner(rules, list[0].device, 1) && IsWinner(rules, list[1].device, 0)
  {
    var x, y := PciDevice("x"), PciDevice("y");
    var isX: Selector := (d: PciDevice) => d.address == "x";
    var isY: Selector := (d: PciDevice) => d.address == "y";
    var never: Selector := (d: PciDevice) => false;
    var first := PciRule(true, [isX, never, isY], [isX], Some("a"), false, false, false, false);
    var second := PciRule(true, [isX], [], Some("b"), false, false, false, false);
    InversionOrders(first, second, x, y);
    var groups: Groups := (a: string) => Ok([]);
    InversionIsListed([first, second], groups, x, y);
  }

  lemma InversionOrders(first: PciRule, second: PciRule, x: PciDevice, y: PciDevice)
    requires first.enabled && first.targetVm.Some? && |first.allow| == 3 && |first.deny| == 1
    requires second.enabled && second.targetVm.Some? && |second.allow| == 1 && second.deny == []
    requires first.allow[0](x) && first.deny[0](x) && second.allow[0](x)
    requires first.allow[2](y) && !first.allow[0](y) && !first.allow[1](y) && !first.deny[0](y)
    ensures var rules := [first, second];
      && IsWinner(rules, x, 1) && IsWinner(rules, y, 0)
      && OrderAfter(rules, 2, x) < OrderAfter(rules, 1, y)
  {
    var rules := [first, second];
    assert !AnyMatches(first.deny, y);
    assert FirstHit(first.allow, x) == Some(0) && FirstHit(second.allow, x) == Some(0);
    assert FirstHit(first.allow, y) == Some(2);
    assert OrderAfter(rules, 1, x) == 1 && OrderAfter(rules, 2, x) == 2 && OrderAfter(rules, 1, y) == 3;
  }

  lemma InversionIsListed(rules: seq<PciRule>, groups: Groups, x: PciDevice, y: PciDevice)
    requires IsWinner(rules, x, 1) && IsWinner(rules, y, 0)
    requires !rules[0].iommuSkipIfShared && !rules[1].iommuSkipIfShared
    requires OrderAfter(rules, 2, x) < OrderAfter(rules, 1, y)
    ensures exists list: seq<Routed> ::
              && PciDevices([y, x], rules, groups) == Ok(list) && |list| == 2
              && IsWinner(rules, list[0].device, 1) && IsWinner(rules, list[1].device, 0)
  {
    MatchFromWins(rules, x, 0);
    MatchFromWins(rules, y, 0);
    var m, n := MatchFrom(rules, x, 0).value, MatchFrom(rules, y, 0).value;
    var i: nat :| MatchesRule(rules, x, i, m);
    var j: nat :| MatchesRule(rules, y, j, n);
    assert i == 1 && j == 0;
    TwoListed(rules, groups, x, y, m, n);
  }
}
