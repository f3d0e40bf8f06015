/**
 The list of permanently disconnected devices in the persistent state: a
 list on disk, kept sorted and free of duplicates, that means a set.
 */
module Marks {
  import opened Sorting

  function Retain(list: seq<string>, id: string): seq<string> {
    if list == [] then []
    else (if list[0] == id then [] else [list[0]]) + Retain(list[1..], id)
  }

  function SetDisconnected(list: seq<string>, id: string, value: bool): seq<string> {
    var kept := Retain(list, id);
    if value then Sort(kept + [id], Leq) else kept
  }

  ghost predicate StrictlySorted(list: seq<string>) {
    forall i, j :: 0 <= i < j < |list| ==> Leq(list[i], list[j]) && list[i] != list[j]
  }

  lemma {:induction false} RetainElements(list: seq<string>, id: string)
    ensures forall x :: x in Retain(list, id) <==> x in list && x != id
    ensures multiset(Retain(list, id)) == multiset(list)[id := 0]
    ensures id !in list ==> Retain(list, id) == list
  {
    if list != [] {
      RetainElements(list[1..], id);
      assert list == [list[0]] + list[1..];
    }
  }

  lemma {:induction false} RetainAppend(list: seq<string>, x: string, id: string)
    ensures Retain(list + [x], id) == Retain(list, id) + if x == id then [] else [x]
  {
    if list == [] {
    } else {
      RetainAppend(list[1..], x, id);
      assert (list + [x])[1..] == list[1..] + [x];
    }
  }

  lemma {:induction false} RetainSorted(list: seq<string>, id: string)
    requires StrictlySorted(list)
    ensures StrictlySorted(Retain(list, id))
  {
    if list != [] {
      RetainSorted(list[1..], id);
      var rest := Retain(list[1..], id);
      RetainElements(list[1..], id);
      forall j | 0 <= j < |rest| ensures Leq(list[0], rest[j]) && list[0] != rest[j] {
        assert rest[j] in rest;
        var k :| 0 <= k < |list[1..]| && list[1..][k] == rest[j];
        assert list[k + 1] == rest[j];
      }
    }
  }

  /** The list means a set: setting one id changes that id and nothing else,
      even in a list that was loaded with duplicates. */
  lemma SetDisconnectedIsUpdate(list: seq<string>, id: string, value: bool)
    ensures forall x :: x in SetDisconnected(list, id, value) <==> if x == id then value else x in list
    ensures multiset(SetDisconnected(list, id, value)) == multiset(list)[id := if value then 1 else 0]
    ensures value ==> Sorted(SetDisconnected(list, id, value), Leq)
    ensures !value && id !in list ==> SetDisconnected(list, id, value) == list
  {
    RetainElements(list, id);
    LeqIsPreorder();
    SortSorts(Retain(list, id) + [id], Leq);
  }

  /** Sorted and duplicate-free lists stay so. */
  lemma SetDisconnectedStaysSorted(list: seq<string>, id: string, value: bool)
    requires StrictlySorted(list)
    ensures StrictlySorted(SetDisconnected(list, id, value))
  {
    RetainSorted(list, id);
    if value {
      SetDisconnectedIsUpdate(list, id, value);
      var r := SetDisconnected(list, id, value);
      forall i, j | 0 <= i < j < |r| ensures r[i] != r[j] {
        StrictMultiplicity(list);
        assert multiset(r)[r[i]] <= 1;
        TwiceInMultiset(r, i, j);
      }
    }
  }

  lemma TwiceInMultiset(r: seq<string>, i: int, j: int)
    requires 0 <= i < j < |r|
    ensures r[i] == r[j] ==> multiset(r)[r[i]] >= 2
  {
    assert r == r[..i] + [r[i]] + r[i + 1..j] + [r[j]] + r[j + 1..];
  }

  lemma {:induction false} StrictMultiplicity(list: seq<string>)
    requires StrictlySorted(list)
    ensures forall x :: multiset(list)[x] <= 1
  {
    if list != [] {
      StrictMultiplicity(list[1..]);
      assert list == [list[0]] + list[1..];
      assert list[0] !in list[1..];
      assert list[0] !in multiset(list[1..]);
    }
  }

  lemma {:induction false} SortedUnique(a: seq<string>, b: seq<string>)
    requires StrictlySorted(a) && StrictlySorted(b)
    requires forall x :: x in a <==> x in b
    ensures a == b
  {
    if a == [] {
      var marked := set x | x in b;
      assert marked == {};
      assert forall i :: 0 <= i < |b| ==> b[i] in marked;
    } else {
      assert a[0] in b && b[0] in a;
      LeqTotal(a[0], b[0]);
      assert Leq(a[0], b[0]) && Leq(b[0], a[0]) by {
        LeqTotal(a[0], a[0]);
      }
      forall x ensures x in a[1..] <==> x in b[1..] {
        assert x in a <==> x in b;
        assert a == [a[0]] + a[1..] && b == [b[0]] + b[1..];
        assert a[0] !in a[1..] && b[0] !in b[1..];
      }
      SortedUnique(a[1..], b[1..]);
      assert a == [a[0]] + a[1..] && b == [b[0]] + b[1..];
    }
  }

  /** Lifting a mark that was just set restores the list exactly. */
  lemma MarkThenLift(list: seq<string>, id: string)
    requires StrictlySorted(list) && id !in list
    ensures SetDisconnected(SetDisconnected(list, id, true), id, false) == list
  {
    var marked := SetDisconnected(list, id, true);
    SetDisconnectedIsUpdate(list, id, true);
    SetDisconnectedIsUpdate(marked, id, false);
    SetDisconnectedStaysSorted(list, id, true);
    SetDisconnectedStaysSorted(marked, id, false);
    SortedUnique(SetDisconnected(marked, id, false), list);
  }
}
