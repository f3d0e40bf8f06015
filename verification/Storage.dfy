/**
 Protection of host storage: a USB device must not be passed through while
 the host uses a block device that is, directly or through any stack of
 mappers, backed by it.
 */
module Storage {

  /** sysPath is the resolved path as its sequence of components. */
  datatype Block = Block(deviceId: string, sysPath: seq<string>, slaves: seq<string>, hasHolders: bool)

  type Blocks = map<string, Block>

  /** The blocks that live below the device itself. */
  ghost predicate Under(blocks: Blocks, device: seq<string>, name: string) {
    name in blocks && device <= blocks[name].sysPath
  }

  /** `above` is built directly on `below`. */
  ghost predicate DependsOn(blocks: Blocks, above: string, below: string) {
    above in blocks && below in blocks[above].slaves
  }

  /** A chain of blocks from one below the device upwards. */
  ghost predicate IsStack(blocks: Blocks, device: seq<string>, stack: seq<string>) {
    && |stack| > 0
    && Under(blocks, device, stack[0])
    && forall i :: 0 <= i < |stack| - 1 ==> DependsOn(blocks, stack[i + 1], stack[i])
  }

  ghost predicate Reaches(blocks: Blocks, device: seq<string>, name: string) {
    exists stack :: IsStack(blocks, device, stack) && stack[|stack| - 1] == name
  }

  /** The protection the documentation promises. */
  ghost predicate Protected(blocks: Blocks, device: seq<string>, active: set<string>) {
    || (exists name :: Under(blocks, device, name) && blocks[name].hasHolders)
    || (exists name :: name in blocks && Reaches(blocks, device, name) && blocks[name].deviceId in active)
  }

  lemma ExtendStack(blocks: Blocks, device: seq<string>, above: string, below: string)
    requires Reaches(blocks, device, below) && DependsOn(blocks, above, below)
    ensures Reaches(blocks, device, above)
  {
    var stack :| IsStack(blocks, device, stack) && stack[|stack| - 1] == below;
    var longer := stack + [above];
    assert IsStack(blocks, device, longer) && longer[|longer| - 1] == above;
  }

  /** A set that contains the start and is closed upwards contains every stack. */
  lemma {:induction false} ClosedContainsStack(blocks: Blocks, device: seq<string>, backing: set<string>,
                                               stack: seq<string>)
    requires forall name :: Under(blocks, device, name) ==> name in backing
    requires forall above, below :: below in backing && DependsOn(blocks, above, below) ==> above in backing
    requires IsStack(blocks, device, stack)
    ensures stack[|stack| - 1] in backing
  {
    if |stack| > 1 {
      var shorter := stack[..|stack| - 1];
      ClosedContainsStack(blocks, device, backing, shorter);
      assert DependsOn(blocks, stack[|stack| - 2 + 1], stack[|stack| - 2]);
    }
  }

  /** Blocks not yet known to be backed that are built on one that is. */
  function Dependents(blocks: Blocks, backing: set<string>): set<string> {
    set name | name in blocks && name !in backing && BuiltOn(blocks[name].slaves, backing)
  }

  predicate BuiltOn(slaves: seq<string>, backing: set<string>) {
    exists slave :: slave in slaves && slave in backing
  }

  /** The set holds everything below the device and nothing the device does not reach. */
  ghost predicate Backed(blocks: Blocks, device: seq<string>, backing: set<string>) {
    && backing <= blocks.Keys
    && (forall name :: Under(blocks, device, name) ==> name in backing)
    && (forall name :: name in backing ==> Reaches(blocks, device, name))
  }

  lemma StartIsBacked(blocks: Blocks, device: seq<string>, backing: set<string>)
    requires backing == set name | name in blocks && device <= blocks[name].sysPath
    ensures Backed(blocks, device, backing)
  {
    forall name | name in backing ensures Reaches(blocks, device, name) {
      assert IsStack(blocks, device, [name]) && [name][|[name]| - 1] == name;
    }
  }

  lemma DependentsAreBacked(blocks: Blocks, device: seq<string>, backing: set<string>)
    requires Backed(blocks, device, backing)
    ensures Backed(blocks, device, backing + Dependents(blocks, backing))
  {
    forall name | name in Dependents(blocks, backing) ensures Reaches(blocks, device, name) {
      var slave :| slave in blocks[name].slaves && slave in backing;
      ExtendStack(blocks, device, name, slave);
    }
  }

  /** At the fixpoint the set is exactly what the device reaches. */
  lemma FixpointIsReachability(blocks: Blocks, device: seq<string>, backing: set<string>)
    requires Backed(blocks, device, backing) && Dependents(blocks, backing) == {}
    ensures forall name :: name in backing <==> Reaches(blocks, device, name)
  {
    forall above, below | below in backing && DependsOn(blocks, above, below) ensures above in backing {
      assert BuiltOn(blocks[above].slaves, backing);
      assert above in backing || above in Dependents(blocks, backing);
    }
    forall name | Reaches(blocks, device, name) ensures name in backing {
      var stack :| IsStack(blocks, device, stack) && stack[|stack| - 1] == name;
      ClosedContainsStack(blocks, device, backing, stack);
    }
  }

  lemma VerdictIsProtection(blocks: Blocks, device: seq<string>, active: set<string>, backing: set<string>)
    requires forall name :: name in backing <==> Reaches(blocks, device, name)
    requires forall name :: Under(blocks, device, name) ==> !blocks[name].hasHolders
    requires backing <= blocks.Keys
    ensures (exists name :: name in backing && blocks[name].deviceId in active) <==> Protected(blocks, device, active)
  {
  }

  /** The worklist loop decides protection for every block graph, cyclic ones included. */
  method UsbBacksActiveStorage(blocks: Blocks, device: seq<string>, active: set<string>) returns (r: bool)
    ensures r <==> Protected(blocks, device, active)
  {
    var backing := set name | name in blocks && device <= blocks[name].sysPath;
    if exists name :: name in backing && blocks[name].hasHolders {
      assert exists name :: Under(blocks, device, name) && blocks[name].hasHolders;
      return true;
    }
    assert forall name :: Under(blocks, device, name) ==> name in backing;
    StartIsBacked(blocks, device, backing);
    while true
      invariant Backed(blocks, device, backing)
      decreases |blocks.Keys| - |backing|
    {
      var dependents := Dependents(blocks, backing);
      if dependents == {} {
        break;
      }
      DependentsAreBacked(blocks, device, backing);
      Growth(backing, dependents, blocks.Keys);
      backing := backing + dependents;
    }
    FixpointIsReachability(blocks, device, backing);
    VerdictIsProtection(blocks, device, active, backing);
    r := exists name :: name in backing && blocks[name].deviceId in active;
  }

  lemma Growth(a: set<string>, more: set<string>, bound: set<string>)
    requires a + more <= bound && a !! more && more != {}
    ensures |a| < |a + more| <= |bound|
  {
    assert |a + more| == |a| + |more|;
    assert bound == (a + more) + (bound - (a + more));
  }
}
