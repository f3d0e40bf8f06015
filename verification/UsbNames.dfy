/**
 Names in the USB device directory. A device's interfaces are the entries
 that start with its name and a colon; a root hub `usbN` owns `N-0:` instead.
 */
module UsbNames {
  import opened World

  predicate AllDigits(s: string) {
    forall i :: 0 <= i < |s| ==> '0' <= s[i] <= '9'
  }

  predicate IsRootHub(name: string) {
    "usb" <= name && |name| > 3 && AllDigits(name[3..])
  }

  /** The part of an interface name before its colon. */
  function Stem(name: string): string {
    if IsRootHub(name) then name[3..] + "-0" else name
  }

  function Prefix(name: string): string {
    Stem(name) + ":"
  }

  predicate IsInterfaceOf(entry: string, name: string) {
    Prefix(name) <= entry
  }

  function Interfaces(listing: seq<string>, name: string): (r: seq<string>)
    ensures forall i :: i in r <==> i in listing && IsInterfaceOf(i, name)
  {
    if listing == [] then []
    else Interfaces(listing[..|listing| - 1], name)
         + if IsInterfaceOf(listing[|listing| - 1], name) then [listing[|listing| - 1]] else []
  }

  /** Devices only: an interface carries a colon. */
  function DeviceNames(listing: seq<string>): (r: seq<string>)
    ensures forall n :: n in r <==> n in listing && ColonFree(n)
  {
    if listing == [] then []
    else DeviceNames(listing[..|listing| - 1])
         + if ColonFree(listing[|listing| - 1]) then [listing[|listing| - 1]] else []
  }

  /** A root hub and a device that would be named after its own interfaces. */
  predicate Alias(rootHub: string, name: string) {
    IsRootHub(rootHub) && name == rootHub[3..] + "-0"
  }

  lemma StemIsColonFree(name: string)
    requires ColonFree(name)
    ensures ColonFree(Stem(name))
  {
    if IsRootHub(name) {
      var s := Stem(name);
      forall i | 0 <= i < |s| ensures s[i] != ':' {
        if i < |name| - 3 {
          assert s[i] == name[3..][i];
        }
      }
    }
  }

  lemma PrefixesMeet(x: string, y: string, entry: string)
    requires ColonFree(x) && ColonFree(y) && IsInterfaceOf(entry, x) && IsInterfaceOf(entry, y)
    ensures Stem(x) == Stem(y)
  {
    StemIsColonFree(x);
    StemIsColonFree(y);
    SplitAtColon(Stem(x), entry[|Prefix(x)|..], Stem(y), entry[|Prefix(y)|..]);
    assert entry == Stem(x) + ":" + entry[|Prefix(x)|..];
    assert entry == Stem(y) + ":" + entry[|Prefix(y)|..];
  }

  lemma StemsMeet(x: string, y: string)
    requires Stem(x) == Stem(y)
    ensures x == y || Alias(x, y) || Alias(y, x)
  {
    if IsRootHub(x) && IsRootHub(y) {
      assert Stem(x)[..|Stem(x)| - 2] == x[3..] && Stem(y)[..|Stem(y)| - 2] == y[3..];
      assert x == "usb" + x[3..] && y == "usb" + y[3..];
    }
  }

  /** Two devices share an interface entry exactly when one is a root hub
      `usbN` and the other is named `N-0`. */
  lemma InterfacesDisjointIff(x: string, y: string)
    requires x != y && ColonFree(x) && ColonFree(y)
    ensures (exists entry :: IsInterfaceOf(entry, x) && IsInterfaceOf(entry, y)) <==> Alias(x, y) || Alias(y, x)
  {
    if Alias(x, y) || Alias(y, x) {
      AliasStems(x, y);
      assert IsInterfaceOf(Prefix(x), x) && IsInterfaceOf(Prefix(x), y);
    } else {
      forall entry | IsInterfaceOf(entry, x) && IsInterfaceOf(entry, y) ensures false {
        PrefixesMeet(x, y, entry);
        StemsMeet(x, y);
      }
    }
  }

  lemma AliasStems(x: string, y: string)
    requires Alias(x, y) || Alias(y, x)
    ensures Stem(x) == Stem(y)
  {
    var hub, name := if Alias(x, y) then x else y, if Alias(x, y) then y else x;
    assert name[0] == hub[3] == hub[3..][0];
    assert name[0] != "usb"[0];
    assert !IsRootHub(name);
  }

  /** An interface entry is never a device entry. */
  lemma InterfaceHasColon(entry: string, name: string)
    requires IsInterfaceOf(entry, name)
    ensures !ColonFree(entry)
  {
    assert entry[|Stem(name)|] == ':';
  }
}
