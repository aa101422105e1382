/** Ordering of scanned peripherals by signal strength (`mac_ordered_by_rssi`):
    a stable ascending sort on rssi, reversed in place, then the addresses
    lower-cased. Positions in the scan result stand for discovery order. */
module Scan {
  import opened Common

  /** One scan result: the address and the received signal strength. */
  datatype Advert = Advert(mac: string, rssi: int)

  /** Ascending rssi, earlier discovery first among equals: the order a
      stable sort on rssi leaves positions in. */
  predicate KeyBefore(s: seq<Advert>, i: nat, j: nat)
    requires i < |s| && j < |s|
  {
    s[i].rssi < s[j].rssi || (s[i].rssi == s[j].rssi && i < j)
  }

  predicate Positions(s: seq<Advert>, l: seq<nat>)
  {
    forall k :: 0 <= k < |l| ==> l[k] < |s|
  }

  predicate Ascending(s: seq<Advert>, l: seq<nat>)
    requires Positions(s, l)
  {
    forall a, b :: 0 <= a < b < |l| ==> KeyBefore(s, l[a], l[b])
  }

  /** Stable insertion of position x into a sorted list: x goes after every
      element whose rssi is not greater than its own. */
  function Insert(s: seq<Advert>, x: nat, l: seq<nat>): (r: seq<nat>)
    requires x < |s| && Positions(s, l)
    ensures |r| == |l| + 1 && Positions(s, r)
    ensures forall y :: y in r <==> y in l || y == x
  {
    if l == [] then [x]
    else if s[x].rssi < s[l[0]].rssi then [x] + l
    else [l[0]] + Insert(s, x, l[1..])
  }

  /** The first k positions sorted by rssi, inserted in discovery order. */
  function SortPrefix(s: seq<Advert>, k: nat): (r: seq<nat>)
    requires k <= |s|
    ensures |r| == k && Positions(s, r)
  {
    if k == 0 then [] else Insert(s, k - 1, SortPrefix(s, k - 1))
  }

  /** `sorted(scanned_devices.items(), key=rssi)`, as positions. */
  function SortByRssi(s: seq<Advert>): (r: seq<nat>)
    ensures |r| == |s| && Positions(s, r)
  {
    SortPrefix(s, |s|)
  }

  function Reverse(l: seq<nat>): (r: seq<nat>)
    ensures |r| == |l|
    ensures forall k :: 0 <= k < |l| ==> r[k] == l[|l| - 1 - k]
  {
    if l == [] then [] else [l[|l| - 1]] + Reverse(l[..|l| - 1])
  }

  /** The positions in the order the addresses are returned. */
  function RssiOrder(s: seq<Advert>): (r: seq<nat>)
    ensures |r| == |s| && Positions(s, r)
  {
    Reverse(SortByRssi(s))
  }

  function MacsInOrder(s: seq<Advert>, order: seq<nat>): (r: seq<string>)
    requires Positions(s, order)
    ensures |r| == |order|
    ensures forall k :: 0 <= k < |order| ==> r[k] == Lower(s[order[k]].mac)
  {
    seq(|order|, k requires 0 <= k < |order| => Lower(s[order[k]].mac))
  }

  lemma MacsInOrderExt(s: seq<Advert>, order: seq<nat>, macs: seq<string>)
    requires Positions(s, order) && |macs| == |order|
    requires forall j :: 0 <= j < |order| ==> macs[j] == Lower(s[order[j]].mac)
    ensures macs == MacsInOrder(s, order)
  {
  }

  lemma {:induction false} InsertAscending(s: seq<Advert>, x: nat, l: seq<nat>)
    requires x < |s| && Positions(s, l) && Ascending(s, l)
    requires forall k :: 0 <= k < |l| ==> l[k] < x
    ensures Ascending(s, Insert(s, x, l))
    decreases |l|
  {
    if l != [] && s[l[0]].rssi <= s[x].rssi {
      InsertAscending(s, x, l[1..]);
      var r := Insert(s, x, l);
      assert r == [l[0]] + Insert(s, x, l[1..]);
      forall b | 0 < b < |r|
        ensures KeyBefore(s, r[0], r[b])
      {
        var y := r[b];
        assert y in Insert(s, x, l[1..]);
        if y != x {
          var j :| 0 <= j < |l[1..]| && l[1..][j] == y;
          assert KeyBefore(s, l[0], l[j + 1]);
        }
      }
    }
  }

  lemma {:induction false} SortPrefixSorted(s: seq<Advert>, k: nat)
    requires k <= |s|
    ensures Ascending(s, SortPrefix(s, k))
    ensures forall y :: y in SortPrefix(s, k) <==> 0 <= y < k
    decreases k
  {
    if k > 0 {
      var l := SortPrefix(s, k - 1);
      SortPrefixSorted(s, k - 1);
      forall j | 0 <= j < |l|
        ensures l[j] < k - 1
      {
        assert l[j] in l;
      }
      InsertAscending(s, k - 1, l);
      var r := SortPrefix(s, k);
      assert r == Insert(s, k - 1, l);
      forall y
        ensures y in r <==> 0 <= y < k
      {
        assert y in r <==> y in l || y == k - 1;
      }
    }
  }

  /** The returned order puts every scanned position exactly once, with
      non-increasing rssi, and equal rssi in reverse discovery order. */
  lemma RssiOrderDescending(s: seq<Advert>)
    ensures forall y :: y in RssiOrder(s) <==> 0 <= y < |s|
    ensures forall a, b :: 0 <= a < b < |s| ==> RssiOrder(s)[a] != RssiOrder(s)[b]
    ensures forall a, b :: 0 <= a < b < |s| ==> s[RssiOrder(s)[a]].rssi >= s[RssiOrder(s)[b]].rssi
    ensures forall a, b :: 0 <= a < b < |s| && s[RssiOrder(s)[a]].rssi == s[RssiOrder(s)[b]].rssi ==>
      RssiOrder(s)[a] > RssiOrder(s)[b]
  {
    var sorted := SortByRssi(s);
    SortPrefixSorted(s, |s|);
    var o := RssiOrder(s);
    var n := |s|;
    forall a, b | 0 <= a < b < n
      ensures KeyBefore(s, o[b], o[a])
    {
      assert o[a] == sorted[n - 1 - a] && o[b] == sorted[n - 1 - b];
    }
    forall y
      ensures y in o <==> 0 <= y < n
    {
      if y in o {
        var k :| 0 <= k < n && o[k] == y;
        assert sorted[n - 1 - k] == y;
        assert y in sorted;
      }
      if 0 <= y < n {
        assert y in sorted;
        var j :| 0 <= j < n && sorted[j] == y;
        assert o[n - 1 - j] == y;
      }
    }
  }

  /** Python's `list.reverse()`. */
  method ReverseInPlace(a: array<nat>)
    modifies a
    ensures a[..] == Reverse(old(a[..]))
  {
    var n := a.Length;
    var i := 0;
    while i < n / 2
      invariant 0 <= i <= n / 2
      invariant forall k :: 0 <= k < i ==> a[k] == old(a[n - 1 - k]) && a[n - 1 - k] == old(a[k])
      invariant forall k :: i <= k < n - i ==> a[k] == old(a[k])
    {
      a[i], a[n - 1 - i] := a[n - 1 - i], a[i];
      i := i + 1;
    }
    assert forall k :: 0 <= k < n ==> a[k] == old(a[..])[n - 1 - k];
  }

  /** The comprehension `[d[0].lower() for d in sorted_devices]`. */
  method LowerMacs(scanned: seq<Advert>, order: seq<nat>) returns (macs: seq<string>)
    requires Positions(scanned, order)
    ensures macs == MacsInOrder(scanned, order)
  {
    macs := [];
    for k := 0 to |order|
      invariant |macs| == k
      invariant forall j :: 0 <= j < k ==> macs[j] == Lower(scanned[order[j]].mac)
    {
      macs := macs + [Lower(scanned[order[k]].mac)];
    }
    MacsInOrderExt(scanned, order, macs);
  }

  /** `mac_ordered_by_rssi` over a given scan result (the scan itself is I/O). */
  method MacOrderedByRssi(scanned: seq<Advert>) returns (macs: seq<string>)
    ensures macs == MacsInOrder(scanned, RssiOrder(scanned))
  {
    var sorted := SortByRssi(scanned);
    var a := new nat[|sorted|](i requires 0 <= i < |sorted| => sorted[i]);
    assert a[..] == sorted;
    ReverseInPlace(a);
    assert a[..] == RssiOrder(scanned);
    macs := LowerMacs(scanned, a[..]);
  }

  /** Signals A:-80, B:-40, C:-60 come out as b, c, a. */
  lemma ScanExample()
    ensures var s := [Advert("A", -80), Advert("B", -40), Advert("C", -60)];
      MacsInOrder(s, RssiOrder(s)) == ["b", "c", "a"]
  {
    var s := [Advert("A", -80), Advert("B", -40), Advert("C", -60)];
    assert SortPrefix(s, 1) == [0];
    assert SortPrefix(s, 2) == [0, 1];
    assert SortPrefix(s, 3) == [0, 2, 1];
    assert RssiOrder(s) == [1, 2, 0];
    assert Lower("B") == "b" && Lower("C") == "c" && Lower("A") == "a";
  }
}
