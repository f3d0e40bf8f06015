/**
 The walk over usbcore's cached descriptor blob, a chain of length-prefixed
 records (sections 9.5 and 9.6.5 of the USB 2.0 specification), and the
 deduplication the device scan applies to its result.
 */
module Descriptors {
  import opened Prelude

  newtype Byte = x: int | 0 <= x < 256

  const USB_DT_INTERFACE: Byte := 4
  const USB_INTERFACE_DESCRIPTOR_SIZE: nat := 9
  const HUB_CLASS: nat := 9

  /** A triple read from the blob is always complete; one read from an
      interface directory may miss any of its attributes. */
  datatype UsbInterface = UsbInterface(class_: Option<nat>, subclass: Option<nat>, protocol: Option<nat>)
  function Triple(class_: Byte, subclass: Byte, protocol: Byte): UsbInterface {
    UsbInterface(Some(class_ as int), Some(subclass as int), Some(protocol as int))
  }

  datatype Numbered = Numbered(number: Byte, triple: UsbInterface)

  /** A chain of descriptors, each its type and the bytes after the two-byte header. */
  datatype Chain = End | Link(kind: Byte, body: seq<Byte>, rest: Chain)

  /** The length prefix is one byte and counts the header. */
  ghost predicate Encodable(chain: Chain) {
    chain.Link? ==> |chain.body| <= 253 && Encodable(chain.rest)
  }

  ghost function Encode(chain: Chain): seq<Byte>
    requires Encodable(chain)
  {
    match chain
    case End => []
    case Link(kind, body, rest) => [(|body| + 2) as Byte, kind] + body + Encode(rest)
  }

  ghost function Join(a: Chain, b: Chain): (r: Chain)
    ensures Encodable(a) && Encodable(b) ==> Encodable(r)
  {
    match a
    case End => b
    case Link(kind, body, rest) => Link(kind, body, Join(rest, b))
  }

  /** The interface a descriptor describes, if it is an interface descriptor of full size. */
  ghost function InterfaceOf(kind: Byte, body: seq<Byte>): seq<Numbered> {
    if kind == USB_DT_INTERFACE && |body| + 2 >= USB_INTERFACE_DESCRIPTOR_SIZE
    then [Numbered(body[0], Triple(body[3], body[4], body[5]))]
    else []
  }

  ghost function InterfacesOf(chain: Chain): seq<Numbered> {
    match chain
    case End => []
    case Link(kind, body, rest) => InterfaceOf(kind, body) + InterfacesOf(rest)
  }

  /** No complete descriptor starts here. */
  ghost predicate Stuck(bytes: seq<Byte>) {
    |bytes| < 2 || bytes[0] < 2 || bytes[0] as int > |bytes|
  }

  /** The longest chain of complete descriptors at the start of arbitrary bytes. */
  ghost function ChainOf(bytes: seq<Byte>): (chain: Chain)
    ensures Encodable(chain)
  {
    if Stuck(bytes) then End
    else Link(bytes[1], bytes[2..bytes[0] as int], ChainOf(bytes[bytes[0] as int..]))
  }

  /** Every byte string is a chain followed by a tail at which no descriptor starts. */
  lemma {:induction false} SplitBytes(bytes: seq<Byte>) returns (tail: seq<Byte>)
    ensures bytes == Encode(ChainOf(bytes)) + tail && Stuck(tail)
  {
    if Stuck(bytes) {
      tail := bytes;
    } else {
      var n := bytes[0] as int;
      tail := SplitBytes(bytes[n..]);
      assert bytes == [bytes[0], bytes[1]] + bytes[2..n] + bytes[n..];
    }
  }

  /** Walking past an encoded chain arrives at whatever follows it. */
  lemma {:induction false} ChainOfAppend(chain: Chain, bytes: seq<Byte>)
    requires Encodable(chain)
    ensures ChainOf(Encode(chain) + bytes) == Join(chain, ChainOf(bytes))
  {
    match chain
    case End =>
      assert Encode(chain) + bytes == bytes;
    case Link(kind, body, rest) =>
      var all := Encode(chain) + bytes;
      var n := |body| + 2;
      assert all == [n as Byte, kind] + body + (Encode(rest) + bytes);
      assert all[n..] == Encode(rest) + bytes;
      assert all[2..n] == body;
      ChainOfAppend(rest, bytes);
  }

  lemma {:induction false} JoinEnd(chain: Chain)
    ensures Join(chain, End) == chain
  {
    match chain
    case End =>
    case Link(_, _, rest) => JoinEnd(rest);
  }

  /** The split into chain and stuck tail is the only one. */
  lemma SplitIsUnique(chain: Chain, tail: seq<Byte>)
    requires Encodable(chain) && Stuck(tail)
    ensures ChainOf(Encode(chain) + tail) == chain
  {
    ChainOfAppend(chain, tail);
    JoinEnd(chain);
  }

  lemma {:induction false} InterfacesOfJoin(a: Chain, b: Chain)
    ensures InterfacesOf(Join(a, b)) == InterfacesOf(a) + InterfacesOf(b)
  {
    match a
    case End =>
    case Link(_, _, rest) => InterfacesOfJoin(rest, b);
  }

  /** The walk as the loop sees it: positions in one byte string. */
  function InterfacesFrom(bytes: seq<Byte>, offset: nat): seq<Numbered>
    requires offset <= |bytes|
    decreases |bytes| - offset
  {
    if offset + 2 > |bytes| || bytes[offset] < 2 || offset + bytes[offset] as int > |bytes| then []
    else
      (if bytes[offset + 1] == USB_DT_INTERFACE && bytes[offset] as int >= USB_INTERFACE_DESCRIPTOR_SIZE
       then [InterfaceAt(bytes, offset)] else [])
      + InterfacesFrom(bytes, offset + bytes[offset] as int)
  }

  function InterfaceAt(bytes: seq<Byte>, offset: nat): Numbered
    requires offset + 7 < |bytes|
  {
    Numbered(bytes[offset + 2], Triple(bytes[offset + 5], bytes[offset + 6], bytes[offset + 7]))
  }

  lemma HeadInterface(bytes: seq<Byte>, offset: nat)
    requires offset <= |bytes| && !Stuck(bytes[offset..])
    ensures var n := bytes[offset] as int;
      InterfaceOf(bytes[offset + 1], bytes[offset + 2..offset + n]) ==
      if bytes[offset + 1] == USB_DT_INTERFACE && n >= USB_INTERFACE_DESCRIPTOR_SIZE
      then [InterfaceAt(bytes, offset)] else []
  {
  }

  lemma ChainHead(bytes: seq<Byte>, offset: nat)
    requires offset <= |bytes| && !Stuck(bytes[offset..])
    ensures var n := bytes[offset] as int;
      ChainOf(bytes[offset..]) == Link(bytes[offset + 1], bytes[offset + 2..offset + n], ChainOf(bytes[offset + n..]))
  {
    var here := bytes[offset..];
    var n := here[0] as int;
    assert here[n..] == bytes[offset + n..];
    assert here[2..n] == bytes[offset + 2..offset + n];
  }

  /** Walking by position is walking the chain of whole descriptors. */
  lemma {:induction false} WalkIsChain(bytes: seq<Byte>, offset: nat)
    requires offset <= |bytes|
    ensures InterfacesFrom(bytes, offset) == InterfacesOf(ChainOf(bytes[offset..]))
    decreases |bytes| - offset
  {
    if !Stuck(bytes[offset..]) {
      var n := bytes[offset] as int;
      WalkIsChain(bytes, offset + n);
      HeadInterface(bytes, offset);
      ChainHead(bytes, offset);
    }
  }

  /** The byte walk. Whatever the bytes, it stays in bounds, terminates and
      returns the interfaces of the longest well-formed chain at the front. */
  method DescriptorInterfaces(descriptors: seq<Byte>) returns (interfaces: seq<Numbered>)
    ensures interfaces == InterfacesOf(ChainOf(descriptors))
  {
    interfaces := [];
    var offset := 0;
    while offset + 2 <= |descriptors|
      invariant 0 <= offset <= |descriptors|
      invariant InterfacesFrom(descriptors, 0) == interfaces + InterfacesFrom(descriptors, offset)
      decreases |descriptors| - offset
    {
      var length := descriptors[offset] as int;
      if length < 2 || offset + length > |descriptors| {
        break;
      }
      if descriptors[offset + 1] == USB_DT_INTERFACE && length >= USB_INTERFACE_DESCRIPTOR_SIZE {
        interfaces := interfaces + [InterfaceAt(descriptors, offset)];
      }
      offset := offset + length;
    }
    WalkIsChain(descriptors, 0);
    assert descriptors[0..] == descriptors;
  }

  /** The walk inverts the encoding: a chain of descriptors gives back exactly
      its interfaces in order, whatever incomplete bytes follow it. */
  lemma WalkInvertsEncoding(chain: Chain, tail: seq<Byte>)
    requires Encodable(chain) && Stuck(tail)
    ensures InterfacesOf(ChainOf(Encode(chain) + tail)) == InterfacesOf(chain)
  {
    SplitIsUnique(chain, tail);
  }

  /** Walking is compositional across a descriptor boundary. */
  lemma WalkComposes(chain: Chain, bytes: seq<Byte>)
    requires Encodable(chain)
    ensures InterfacesOf(ChainOf(Encode(chain) + bytes)) ==
            InterfacesOf(ChainOf(Encode(chain))) + InterfacesOf(ChainOf(bytes))
  {
    ChainOfAppend(chain, bytes);
    SplitIsUnique(chain, []);
    assert Encode(chain) + [] == Encode(chain);
    InterfacesOfJoin(chain, ChainOf(bytes));
  }

  /** The result depends on the longest well-formed prefix alone. */
  lemma WalkIgnoresTheTail(bytes: seq<Byte>, other: seq<Byte>)
    requires Stuck(other)
    ensures InterfacesOf(ChainOf(bytes)) == InterfacesOf(ChainOf(Encode(ChainOf(bytes)) + other))
  {
    SplitIsUnique(ChainOf(bytes), other);
  }

  // ----- deduplication in the scan -----

  ghost function Triples(numbered: seq<Numbered>): seq<UsbInterface> {
    seq(|numbered|, i requires 0 <= i < |numbered| => numbered[i].triple)
  }

  /** Keeps the first occurrence of every element, in order. */
  ghost function FirstOccurrences<T(!new)>(s: seq<T>): (r: seq<T>)
    ensures forall x :: x in r <==> x in s
  {
    if s == [] then []
    else
      var front := FirstOccurrences(s[..|s| - 1]);
      assert s == s[..|s| - 1] + [s[|s| - 1]];
      if s[|s| - 1] in front then front else front + [s[|s| - 1]]
  }

  ghost predicate Distinct<T(!new)>(s: seq<T>) {
    forall i, j :: 0 <= i < j < |s| ==> s[i] != s[j]
  }

  lemma {:induction false} FirstOccurrencesDistinct<T(!new)>(s: seq<T>)
    ensures Distinct(FirstOccurrences(s))
    ensures Distinct(s) ==> FirstOccurrences(s) == s
  {
    if s != [] {
      FirstOccurrencesDistinct(s[..|s| - 1]);
      assert s == s[..|s| - 1] + [s[|s| - 1]];
    }
  }

  /** Cached interfaces lose their duplicates, directory interfaces do not;
      either way the device is a hub exactly when some interface says so. */
  method CollectInterfaces(numbered: seq<Numbered>, cached: bool) returns (interfaces: seq<UsbInterface>)
    ensures interfaces == if cached then FirstOccurrences(Triples(numbered)) else Triples(numbered)
    ensures (exists i :: i in interfaces && i.class_ == Some(HUB_CLASS)) <==>
            (exists n :: n in numbered && n.triple.class_ == Some(HUB_CLASS))
    ensures cached ==> Distinct(interfaces)
    ensures Distinct(Triples(numbered)) ==> interfaces == Triples(numbered)
  {
    interfaces := [];
    ghost var triples := Triples(numbered);
    for i := 0 to |numbered|
      invariant interfaces == if cached then FirstOccurrences(triples[..i]) else triples[..i]
    {
      var interface := numbered[i].triple;
      assert triples[..i + 1] == triples[..i] + [interface];
      assert triples[..i + 1][..i] == triples[..i];
      if !cached || interface !in interfaces {
        interfaces := interfaces + [interface];
      }
    }
    assert triples[..|numbered|] == triples;
    FirstOccurrencesDistinct(triples);
    HubsAmongTriples(numbered);
  }

  lemma HubsAmongTriples(numbered: seq<Numbered>)
    ensures (exists i :: i in Triples(numbered) && i.class_ == Some(HUB_CLASS)) <==>
            (exists n :: n in numbered && n.triple.class_ == Some(HUB_CLASS))
  {
    var triples := Triples(numbered);
    forall n | n in numbered ensures n.triple in triples {
      var k :| 0 <= k < |numbered| && numbered[k] == n;
      assert triples[k] == n.triple;
    }
    forall t | t in triples ensures exists n :: n in numbered && n.triple == t {
      var k :| 0 <= k < |triples| && triples[k] == t;
      assert numbered[k] in numbered;
    }
  }
}
