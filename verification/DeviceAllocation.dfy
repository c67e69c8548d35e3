/**
 * Volumes for the write-ahead log and the database are put on the least used of a set of shared devices. Which of
 * several least used devices that is depends on the order in which the set is visited, and every call builds a new set.
 */
module DeviceAllocation {
  import opened Lists
  import opened Wrappers

  /** The logical volumes on each device; a device not in the map is not an LVM physical volume. */
  type Volumes = map<string, seq<string>>

  function Lvs(v: Volumes, dev: string): seq<string>
  {
    if dev in v then v[dev] else []
  }

  function Usage(v: Volumes): string -> nat
  {
    dev => |Lvs(v, dev)|
  }

  /** find_least_used_utility_device: min() keeps the first of equals; None is its ValueError on an empty list. */
  function FindLeastUsed(devices: seq<string>, usage: string -> nat): Option<string>
  {
    if devices == [] then None
    else
      var last := devices[|devices| - 1];
      match FindLeastUsed(devices[..|devices| - 1], usage)
      case None => Some(last)
      case Some(best) => if usage(last) < usage(best) then Some(last) else Some(best)
  }

  /** It is the first device of the list that no other undercuts. */
  lemma {:induction false} LeastUsedIsFirstMinimum(devices: seq<string>, usage: string -> nat) returns (k: nat)
    requires devices != []
    ensures k < |devices| && FindLeastUsed(devices, usage) == Some(devices[k])
    ensures forall j :: 0 <= j < |devices| ==> usage(devices[k]) <= usage(devices[j])
    ensures forall j :: 0 <= j < k ==> usage(devices[k]) < usage(devices[j])
  {
    var n := |devices| - 1;
    if n == 0 {
      assert FindLeastUsed(devices[..n], usage) == None;
      k := 0;
    } else {
      k := LeastUsedIsFirstMinimum(devices[..n], usage);
      assert forall j :: 0 <= j < n ==> devices[..n][j] == devices[j];
      if usage(devices[n]) < usage(devices[k]) {
        k := n;
      }
    }
  }

  /** list_logical_volumes() */
  predicate Exists(v: Volumes, lv: string)
  {
    exists dev :: dev in v && lv in v[dev]
  }

  /** _allocate_logical_volume on an unencrypted shared device: a volume that exists anywhere is not made again. */
  function Allocate(v: Volumes, dev: string, lv: string): Volumes
  {
    v[dev := Lvs(v, dev) + if Exists(v, lv) then [] else [lv]]
  }

  function AllocateLeast(v: Volumes, devices: seq<string>, lv: string): Volumes
  {
    match FindLeastUsed(devices, Usage(v))
    case None => v
    case Some(dev) => Allocate(v, dev, lv)
  }

  /** One allocation after the other, each with the devices in an order of its own. */
  function AllocateAll(v: Volumes, orders: seq<seq<string>>, lvs: seq<string>): Volumes
    requires |orders| == |lvs|
    decreases lvs
  {
    if lvs == [] then v else AllocateAll(AllocateLeast(v, orders[0], lvs[0]), orders[1..], lvs[1..])
  }

  // ----- The loop over the extra volumes of one OSD -----

  /** "--block.wal vg/lv": the volume group is that of the device. */
  datatype Argument = Block(kind: string, device: string, lv: string)

  const KINDS: seq<string> := ["wal", "db"]

  function LvName(kind: string, fsid: string): string
  {
    "osd-" + kind + "-" + fsid
  }

  /** The devices of a kind in the order in which they are visited. */
  function DevicesFor(utility: map<string, seq<string>>, kind: string): seq<string>
  {
    if kind in utility then utility[kind] else []
  }

  function AfterExtra(v: Volumes, utility: map<string, seq<string>>, fsid: string, kinds: seq<string>): Volumes
    decreases kinds
  {
    if kinds == [] then v
    else AfterExtra(AllocateLeast(v, DevicesFor(utility, kinds[0]), LvName(kinds[0], fsid)), utility, fsid, kinds[1..])
  }

  function Arguments(v: Volumes, utility: map<string, seq<string>>, fsid: string, kinds: seq<string>): seq<Argument>
    decreases kinds
  {
    if kinds == [] then []
    else
      var devices := DevicesFor(utility, kinds[0]);
      var lv := LvName(kinds[0], fsid);
      (match FindLeastUsed(devices, Usage(v)) case None => [] case Some(dev) => [Block(kinds[0], dev, lv)]) +
      Arguments(AllocateLeast(v, devices, lv), utility, fsid, kinds[1..])
  }

  /** The end of _ceph_volume. */
  method ExtraVolumes(v: Volumes, utility: map<string, seq<string>>, fsid: string)
    returns (cmd: seq<Argument>, after: Volumes)
    ensures after == AfterExtra(v, utility, fsid, KINDS)
    ensures cmd == Arguments(v, utility, fsid, KINDS)
  {
    hide LvName, Exists, Lvs, DevicesFor;
    cmd, after := [], v;
    for i := 0 to |KINDS|
      invariant AfterExtra(v, utility, fsid, KINDS) == AfterExtra(after, utility, fsid, KINDS[i..])
      invariant Arguments(v, utility, fsid, KINDS) == cmd + Arguments(after, utility, fsid, KINDS[i..])
    {
      var kind := KINDS[i];
      assert KINDS[i..][1..] == KINDS[i + 1..];
      var devices := DevicesFor(utility, kind);
      if devices != [] {
        ghost var _ := LeastUsedIsFirstMinimum(devices, Usage(after));
        var leastUsed := FindLeastUsed(devices, Usage(after)).value;
        cmd := cmd + [Block(kind, leastUsed, LvName(kind, fsid))];
        after := Allocate(after, leastUsed, LvName(kind, fsid));
      }
    }
  }

  // ----- Balance -----

  /** The set of devices in some order. */
  ghost predicate IsOrder(order: seq<string>, devices: set<string>)
  {
    Distinct(order) && forall d :: d in order <==> d in devices
  }

  ghost predicate AllOrders(orders: seq<seq<string>>, devices: set<string>)
  {
    forall order :: order in orders ==> IsOrder(order, devices)
  }

  /** Any device can be the first to be visited. */
  lemma {:induction false} OrderFrom(devices: set<string>, first: string) returns (order: seq<string>)
    requires first in devices
    ensures IsOrder(order, devices) && order != [] && order[0] == first
    decreases devices
  {
    order := [first];
    var others := devices - {first};
    assert forall d :: d in devices <==> d == first || d in others;
    if others != {} {
      var next :| next in others;
      var tail := OrderFrom(others, next);
      DistinctAppend([first], tail);
      order := [first] + tail;
      assert forall d :: d in order <==> d == first || d in tail;
    }
  }

  ghost predicate Fresh(v: Volumes, lvs: seq<string>)
  {
    Distinct(lvs) && forall lv :: lv in lvs ==> !Exists(v, lv)
  }

  /** No device has more than `k` volumes above another. */
  ghost predicate Within(v: Volumes, devices: set<string>, k: nat)
  {
    forall a, b :: a in devices && b in devices ==> |Lvs(v, a)| <= |Lvs(v, b)| + k
  }

  ghost predicate AtMost(v: Volumes, devices: set<string>, m: nat)
  {
    forall d :: d in devices ==> |Lvs(v, d)| <= m
  }

  ghost function Total(v: Volumes, devices: set<string>): nat
  {
    if devices == {} then 0
    else
      var d :| d in devices;
      |Lvs(v, d)| + Total(v, devices - {d})
  }

  /** The total does not depend on the order of summation. */
  lemma {:induction false} TotalSplits(v: Volumes, devices: set<string>, d: string)
    requires d in devices
    ensures Total(v, devices) == |Lvs(v, d)| + Total(v, devices - {d})
    decreases devices
  {
    var e :| e in devices && Total(v, devices) == |Lvs(v, e)| + Total(v, devices - {e});
    if e != d {
      TotalSplits(v, devices - {e}, d);
      TotalSplits(v, devices - {d}, e);
      assert devices - {d} - {e} == devices - {e} - {d};
    }
  }

  /** One allocation of a new volume adds one to a least used device and changes nothing else. */
  lemma OneAllocation(v: Volumes, devices: set<string>, order: seq<string>, lvs: seq<string>) returns (dev: string)
    requires devices != {} && IsOrder(order, devices) && lvs != [] && Fresh(v, lvs)
    ensures order != [] && (dev == order[0] || |Lvs(v, dev)| < |Lvs(v, order[0])|)
    ensures dev in devices && forall d :: d in devices ==> |Lvs(v, dev)| <= |Lvs(v, d)|
    ensures forall d :: Lvs(AllocateLeast(v, order, lvs[0]), d) == Lvs(v, d) + if d == dev then [lvs[0]] else []
    ensures Fresh(AllocateLeast(v, order, lvs[0]), lvs[1..])
  {
    var some :| some in devices;
    assert some in order;
    var k := LeastUsedIsFirstMinimum(order, Usage(v));
    dev := order[k];
    var after := AllocateLeast(v, order, lvs[0]);
    assert lvs[0] in lvs;
    assert after == v[dev := Lvs(v, dev) + [lvs[0]]];
    assert k > 0 ==> Usage(v)(order[k]) < Usage(v)(order[0]);
    forall d | d in devices
      ensures |Lvs(v, dev)| <= |Lvs(v, d)|
    {
      assert d in order;
      var j :| 0 <= j < |order| && order[j] == d;
      assert Usage(v)(order[k]) <= Usage(v)(order[j]);
    }
    forall lv | lv in lvs[1..]
      ensures !Exists(after, lv)
    {
      assert lv in lvs && lv != lvs[0];
      assert !Exists(v, lv);
    }
  }

  lemma NextOrder(orders: seq<seq<string>>, devices: set<string>)
    requires orders != [] && AllOrders(orders, devices)
    ensures IsOrder(orders[0], devices) && AllOrders(orders[1..], devices)
  {
    assert orders[0] in orders;
  }

  /** The spread never exceeds what it was, or one. */
  lemma {:induction false} SpreadStaysBounded(v: Volumes, devices: set<string>, orders: seq<seq<string>>,
                                              lvs: seq<string>, k: nat)
    requires |orders| == |lvs| && AllOrders(orders, devices)
    requires devices != {} && Fresh(v, lvs) && k >= 1 && Within(v, devices, k)
    ensures Within(AllocateAll(v, orders, lvs), devices, k)
    decreases lvs
  {
    if lvs != [] {
      NextOrder(orders, devices);
      var dev := OneAllocation(v, devices, orders[0], lvs);
      var after := AllocateLeast(v, orders[0], lvs[0]);
      assert Within(after, devices, k);
      hide IsOrder, AllocateLeast, Lvs, Exists;
      SpreadStaysBounded(after, devices, orders[1..], lvs[1..], k);
    }
  }

  lemma {:induction false} TotalChanges(v: Volumes, after: Volumes, devices: set<string>, dev: string)
    requires forall d :: d in devices ==> |Lvs(after, d)| == |Lvs(v, d)| + if d == dev then 1 else 0
    ensures Total(after, devices) == Total(v, devices) + if dev in devices then 1 else 0
    decreases devices
  {
    if devices != {} {
      var d :| d in devices;
      TotalSplits(v, devices, d);
      TotalSplits(after, devices, d);
      TotalChanges(v, after, devices - {d}, dev);
    }
  }

  /** Every new volume lands on some device of the set. */
  lemma {:induction false} VolumesAreConserved(v: Volumes, devices: set<string>, orders: seq<seq<string>>,
                                               lvs: seq<string>)
    requires |orders| == |lvs| && AllOrders(orders, devices) && devices != {} && Fresh(v, lvs)
    ensures Total(AllocateAll(v, orders, lvs), devices) == Total(v, devices) + |lvs|
    decreases lvs
  {
    if lvs != [] {
      NextOrder(orders, devices);
      var dev := OneAllocation(v, devices, orders[0], lvs);
      var after := AllocateLeast(v, orders[0], lvs[0]);
      hide IsOrder, AllocateLeast, Exists;
      TotalChanges(v, after, devices, dev);
      VolumesAreConserved(after, devices, orders[1..], lvs[1..]);
    }
  }

  /** n * m, by repeated addition. */
  function Times(n: nat, m: nat): nat
  {
    if m == 0 then 0 else n + Times(n, m - 1)
  }

  /** n / d, by repeated subtraction. */
  function Quotient(n: nat, d: nat): nat
    requires d > 0
  {
    if n < d then 0 else 1 + Quotient(n - d, d)
  }

  /** n shared by d: the quotient, rounded down or up. */
  function Ceiling(n: nat, d: nat): nat
    requires d > 0
  {
    Quotient(n + d - 1, d)
  }

  lemma {:induction false} TimesIsProduct(n: nat, m: nat)
    ensures Times(n, m) == n * m
  {
    if m > 0 {
      TimesIsProduct(n, m - 1);
    }
  }

  lemma {:induction false} QuotientIsDivision(n: nat, d: nat)
    requires d > 0
    ensures Quotient(n, d) == n / d
  {
    if n >= d {
      QuotientIsDivision(n - d, d);
      var q := (n - d) / d;
      assert n == d * (q + 1) + (n - d) % d;
      DivIs(n, d, q + 1);
    }
  }

  lemma DivIs(n: nat, d: nat, q: nat)
    requires d > 0 && d * q <= n < d * (q + 1)
    ensures n / d == q
  {
    var p := n / d;
    assert n == d * p + n % d;
    TimesIsMonotone(d, p + 1, q);
    TimesIsMonotone(d, q + 1, p);
  }

  lemma TimesIsMonotone(d: nat, a: nat, b: nat)
    ensures a <= b ==> d * a <= d * b
  {
    if a <= b {
      assert d * b == d * a + d * (b - a);
    }
  }

  lemma {:induction false} OneMore(n: nat, m: nat)
    ensures Times(n + 1, m) == Times(n, m) + m
  {
    if m > 0 {
      OneMore(n, m - 1);
    }
  }

  lemma {:induction false} QuotientOfShifted(n: nat, d: nat, q: nat)
    requires d > 0
    ensures Quotient(Times(d, q) + n, d) == q + Quotient(n, d)
  {
    if q > 0 {
      QuotientOfShifted(n, d, q - 1);
    }
  }

  lemma {:induction false} TotalBounds(v: Volumes, devices: set<string>, low: nat, high: nat)
    requires forall d :: d in devices ==> low <= |Lvs(v, d)| <= high
    ensures Times(|devices|, low) <= Total(v, devices) <= Times(|devices|, high)
    decreases devices
  {
    if devices == {} {
      TimesOfNone(low);
      TimesOfNone(high);
    } else {
      var d :| d in devices;
      hide Total, Times, Lvs;
      TotalSplits(v, devices, d);
      TotalBounds(v, devices - {d}, low, high);
      OneMore(|devices - {d}|, low);
      OneMore(|devices - {d}|, high);
    }
  }

  lemma {:induction false} TimesOfNone(m: nat)
    ensures Times(0, m) == 0
  {
    if m > 0 {
      TimesOfNone(m - 1);
    }
  }

  lemma TotalIsStrict(v: Volumes, devices: set<string>, low: nat, high: nat, d: string)
    requires d in devices && forall e :: e in devices ==> low <= |Lvs(v, e)| <= high
    ensures |Lvs(v, d)| < high ==> Total(v, devices) < Times(|devices|, high)
    ensures |Lvs(v, d)| > low ==> Total(v, devices) > Times(|devices|, low)
  {
    hide Total, Times, Lvs;
    TotalSplits(v, devices, d);
    TotalBounds(v, devices - {d}, low, high);
    OneMore(|devices - {d}|, low);
    OneMore(|devices - {d}|, high);
  }

  lemma CountNearLowest(v: Volumes, devices: set<string>, least: string, d: string)
    requires d in devices && least in devices
    requires forall e :: e in devices ==> |Lvs(v, least)| <= |Lvs(v, e)| <= |Lvs(v, least)| + 1
    ensures Quotient(Total(v, devices), |devices|) <= |Lvs(v, d)| <= Ceiling(Total(v, devices), |devices|)
  {
    var n, got, low := Total(v, devices), |Lvs(v, d)|, |Lvs(v, least)|;
    TotalBounds(v, devices, low, low + 1);
    TotalIsStrict(v, devices, low, low + 1, least);
    TotalIsStrict(v, devices, low, low + 1, d);
    assert Times(|devices|, low + 1) == |devices| + Times(|devices|, low);
    ShareOfAverage(got, n, |devices|, low);
  }

  lemma {:induction false} LeastOf(v: Volumes, devices: set<string>) returns (least: string)
    requires devices != {}
    ensures least in devices && forall d :: d in devices ==> |Lvs(v, least)| <= |Lvs(v, d)|
    decreases devices
  {
    least :| least in devices;
    if devices != {least} {
      var other := LeastOf(v, devices - {least});
      if |Lvs(v, other)| < |Lvs(v, least)| {
        least := other;
      }
    }
  }

  /** A spread of at most one and a total fix every count: the average, rounded down or up. */
  lemma CountIsAverage(v: Volumes, devices: set<string>, total: nat, d: string)
    requires d in devices && Within(v, devices, 1) && total == Total(v, devices)
    ensures Quotient(total, |devices|) <= |Lvs(v, d)| <= Ceiling(total, |devices|)
  {
    var least := LeastOf(v, devices);
    CountNearLowest(v, devices, least, d);
  }

  lemma ShareOfAverage(got: nat, n: nat, d: nat, low: nat)
    requires d > 0 && Times(d, low) <= n < Times(d, low) + d
    requires got == low || (got == low + 1 && n > Times(d, low))
    ensures Quotient(n, d) <= got <= Ceiling(n, d)
  {
    var over := n - Times(d, low);
    QuotientOfShifted(over, d, low);
    QuotientOfShifted(over + d - 1, d, low);
    assert Quotient(over, d) == 0;
    if over > 0 {
      assert Quotient(over + d - 1, d) == 1 + Quotient(over - 1, d);
    }
  }

  lemma SharesOfShifted(n: nat, d: nat, q: nat)
    requires d > 0
    ensures Quotient(Times(d, q) + n, d) == q + Quotient(n, d)
    ensures Ceiling(Times(d, q) + n, d) == q + Ceiling(n, d)
  {
    QuotientOfShifted(n, d, q);
    QuotientOfShifted(n + d - 1, d, q);
  }

  lemma CountAboveStart(v: Volumes, devices: set<string>, start: nat, n: nat, d: string)
    requires d in devices && Within(v, devices, 1) && Total(v, devices) == Times(|devices|, start) + n
    ensures Quotient(n, |devices|) <= |Lvs(v, d)| - start <= Ceiling(n, |devices|)
  {
    var c, got := |devices|, |Lvs(v, d)|;
    CountIsAverage(v, devices, Times(c, start) + n, d);
    SharesOfShifted(n, c, start);
  }

  /** From equal counts, n allocations on d devices add n/d to each, rounded down or up. */
  lemma EqualShares(v: Volumes, devices: set<string>, orders: seq<seq<string>>, lvs: seq<string>, start: nat, d: string)
    requires |orders| == |lvs| && AllOrders(orders, devices) && Fresh(v, lvs) && d in devices
    requires forall e :: e in devices ==> |Lvs(v, e)| == start
    ensures Quotient(|lvs|, |devices|) <= |Lvs(AllocateAll(v, orders, lvs), d)| - start <= Ceiling(|lvs|, |devices|)
  {
    var after := AllocateAll(v, orders, lvs);
    assert Within(v, devices, 1);
    TotalBounds(v, devices, start, start);
    SpreadStaysBounded(v, devices, orders, lvs, 1);
    VolumesAreConserved(v, devices, orders, lvs);
    CountAboveStart(after, devices, start, |lvs|, d);
  }

  lemma {:induction false} AllocateAllSplits(v: Volumes, orders: seq<seq<string>>, first: seq<string>,
                                             second: seq<string>)
    requires |orders| == |first + second|
    ensures AllocateAll(v, orders, first + second) ==
      AllocateAll(AllocateAll(v, orders[..|first|], first), orders[|first|..], second)
    decreases first
  {
    if first == [] {
      assert first + second == second && orders[..|first|] == [] && orders[|first|..] == orders;
    } else {
      assert (first + second)[1..] == first[1..] + second;
      assert orders[..|first|][1..] == orders[1..][..|first[1..]|];
      assert orders[|first|..] == orders[1..][|first[1..]|..];
      AllocateAllSplits(AllocateLeast(v, orders[0], first[0]), orders[1..], first[1..], second);
    }
  }

  /** No device passes `m` while the others still have room below it, and once the room is used all have `m`. */
  lemma {:induction false} RoomIsFilledFirst(v: Volumes, devices: set<string>, orders: seq<seq<string>>,
                                             lvs: seq<string>, m: nat)
    requires |orders| == |lvs| && AllOrders(orders, devices) && devices != {} && Fresh(v, lvs) && AtMost(v, devices, m)
    requires Total(v, devices) + |lvs| <= Times(|devices|, m)
    ensures AtMost(AllocateAll(v, orders, lvs), devices, m)
    ensures Total(v, devices) + |lvs| == Times(|devices|, m) ==>
      forall d :: d in devices ==> |Lvs(AllocateAll(v, orders, lvs), d)| == m
    decreases lvs
  {
    if lvs == [] {
      forall d | d in devices
        ensures Total(v, devices) == Times(|devices|, m) ==> |Lvs(v, d)| == m
      {
        TotalIsStrict(v, devices, 0, m, d);
      }
    } else {
      NextOrder(orders, devices);
      var dev := OneAllocation(v, devices, orders[0], lvs);
      var after := AllocateLeast(v, orders[0], lvs[0]);
      hide AllocateAll, AllocateLeast, IsOrder, AllOrders;
      if |Lvs(v, dev)| >= m {
        TotalBounds(v, devices, m, m);
      }
      TotalChanges(v, after, devices, dev);
      RoomIsFilledFirst(after, devices, orders[1..], lvs[1..], m);
    }
  }

  /**
   * From any counts up to m: the volumes for which there is room below m fill all devices up to m, and those after
   * them are shared out evenly, so the counts end within one of each other.
   */
  lemma AnyStartEvensOut(v: Volumes, devices: set<string>, orders: seq<seq<string>>, first: seq<string>,
                         second: seq<string>, m: nat, d: string)
    requires |orders| == |first + second| && AllOrders(orders, devices)
    requires Fresh(v, first + second) && d in devices && AtMost(v, devices, m)
    requires Total(v, devices) + |first| == Times(|devices|, m)
    ensures var got := |Lvs(AllocateAll(v, orders, first + second), d)| - m;
      Quotient(|second|, |devices|) <= got <= Ceiling(|second|, |devices|)
  {
    var orders1, orders2 := orders[..|first|], orders[|first|..];
    assert AllOrders(orders1, devices) && AllOrders(orders2, devices);
    FreshSplits(v, devices, orders1, first, second);
    RoomIsFilledFirst(v, devices, orders1, first, m);
    AllocateAllSplits(v, orders, first, second);
    hide *;
    EqualShares(AllocateAll(v, orders1, first), devices, orders2, second, m, d);
  }

  lemma {:induction false} FreshSplits(v: Volumes, devices: set<string>, orders: seq<seq<string>>, first: seq<string>,
                                       second: seq<string>)
    requires |orders| == |first| && AllOrders(orders, devices) && devices != {} && Fresh(v, first + second)
    ensures Fresh(v, first) && Fresh(AllocateAll(v, orders, first), second)
    decreases first
  {
    var all := first + second;
    assert forall i :: 0 <= i < |first| ==> all[i] == first[i];
    assert forall lv :: lv in first ==> lv in all;
    if first == [] {
      assert all == second;
    } else {
      NextOrder(orders, devices);
      var dev := OneAllocation(v, devices, orders[0], all);
      assert all[1..] == first[1..] + second;
      hide AllocateLeast, Lvs, Exists, IsOrder;
      FreshSplits(AllocateLeast(v, orders[0], first[0]), devices, orders[1..], first[1..], second);
    }
  }

  // ----- A whole deployment: one pair of volumes for each OSD -----

  function NamesOf(fsids: seq<string>): seq<string>
  {
    if fsids == [] then [] else [LvName(KINDS[0], fsids[0]), LvName(KINDS[1], fsids[0])] + NamesOf(fsids[1..])
  }

  /** Every OSD sees the devices in orders of its own. */
  function AfterOsds(v: Volumes, orders: seq<map<string, seq<string>>>, fsids: seq<string>): Volumes
    requires |orders| == |fsids|
    decreases fsids
  {
    if fsids == [] then v else AfterOsds(AfterExtra(v, orders[0], fsids[0], KINDS), orders[1..], fsids[1..])
  }

  ghost predicate Sees(utility: map<string, seq<string>>, wal: set<string>, db: set<string>)
  {
    IsOrder(DevicesFor(utility, "wal"), wal) && IsOrder(DevicesFor(utility, "db"), db)
  }

  ghost predicate AllSee(orders: seq<map<string, seq<string>>>, wal: set<string>, db: set<string>)
  {
    forall utility :: utility in orders ==> Sees(utility, wal, db)
  }

  ghost predicate BothWithin(v: Volumes, wal: set<string>, db: set<string>, k: nat)
  {
    Within(v, wal, k) && Within(v, db, k)
  }

  /** No device serves both kinds; or all log devices are database devices, of which at most one is no log device. */
  predicate BoundsSurvive(wal: set<string>, db: set<string>)
  {
    wal !! db || (wal <= db && |db - wal| <= 1)
  }

  /** What min() picks among the counts when `front` is the device that is visited first. */
  ghost predicate Picked(count: string -> nat, devices: set<string>, front: string, dev: string)
  {
    && dev in devices && (forall d :: d in devices ==> count(dev) <= count(d))
    && (dev == front || count(dev) < count(front))
  }

  ghost predicate Spread(count: string -> nat, devices: set<string>, k: nat)
  {
    forall d, e :: d in devices && e in devices ==> count(d) <= count(e) + k
  }

  function OneUp(count: string -> nat, dev: string): string -> nat
  {
    d => count(d) + if d == dev then 1 else 0
  }

  lemma OnlyOneMore(wal: set<string>, db: set<string>, a: string, b: string)
    requires |db - wal| <= 1 && a in db - wal && b in db - wal
    ensures a == b
  {
    var own := db - wal;
    assert |own - {a}| == |own| - 1;
    assert b !in own - {a};
  }

  /** No log device rises too far above another: those that get a database volume are least used among the latter. */
  lemma LogDevicesKeepBound(count: string -> nat, wal: set<string>, db: set<string>, fronts: (string, string),
                            first: string, second: string, k: nat, a: string, b: string)
    requires k >= 1 && BoundsSurvive(wal, db) && a in wal && b in wal
    requires Spread(count, wal, k) && Spread(count, db, k)
    requires Picked(count, wal, fronts.0, first) && Picked(OneUp(count, first), db, fronts.1, second)
    ensures OneUp(OneUp(count, first), second)(a) <= OneUp(OneUp(count, first), second)(b) + k
  {
    assert count(first) <= count(b) && count(a) <= count(b) + k;
    if b in db {
      assert OneUp(count, first)(second) <= OneUp(count, first)(b);
    }
  }

  /** Nor a database device: the only one that the log volumes pass by is the next to get a database volume. */
  lemma DatabaseDevicesKeepBound(count: string -> nat, wal: set<string>, db: set<string>, fronts: (string, string),
                                 first: string, second: string, k: nat, a: string, b: string)
    requires k >= 1 && BoundsSurvive(wal, db) && a in db && b in db
    requires Spread(count, wal, k) && Spread(count, db, k)
    requires Picked(count, wal, fronts.0, first) && Picked(OneUp(count, first), db, fronts.1, second)
    ensures OneUp(OneUp(count, first), second)(a) <= OneUp(OneUp(count, first), second)(b) + k
  {
    assert OneUp(count, first)(second) <= OneUp(count, first)(b);
    if a == first && b !in wal && second !in wal {
      OnlyOneMore(wal, db, b, second);
    }
  }

  ghost predicate OneMoreOn(v: Volumes, dev: string, after: Volumes)
  {
    forall d :: |Lvs(after, d)| == OneUp(Usage(v), dev)(d)
  }

  lemma CountsKeepBounds(v: Volumes, between: Volumes, after: Volumes, wal: set<string>, db: set<string>, k: nat,
                         fronts: (string, string), first: string, second: string)
    requires k >= 1 && BoundsSurvive(wal, db) && BothWithin(v, wal, db, k)
    requires Picked(Usage(v), wal, fronts.0, first) && OneMoreOn(v, first, between)
    requires Picked(Usage(between), db, fronts.1, second) && OneMoreOn(between, second, after)
    ensures BothWithin(after, wal, db, k)
  {
    hide BoundsSurvive;
    assert forall d :: |Lvs(between, d)| == Usage(between)(d) == OneUp(Usage(v), first)(d);
    assert Picked(OneUp(Usage(v), first), db, fronts.1, second);
    forall a, b | a in wal && b in wal
      ensures |Lvs(after, a)| <= |Lvs(after, b)| + k
    {
      LogDevicesKeepBound(Usage(v), wal, db, fronts, first, second, k, a, b);
    }
    forall a, b | a in db && b in db
      ensures |Lvs(after, a)| <= |Lvs(after, b)| + k
    {
      DatabaseDevicesKeepBound(Usage(v), wal, db, fronts, first, second, k, a, b);
    }
  }

  lemma PickedDevice(v: Volumes, devices: set<string>, order: seq<string>, lvs: seq<string>) returns (dev: string)
    requires devices != {} && IsOrder(order, devices) && lvs != [] && Fresh(v, lvs)
    ensures order != [] && Picked(Usage(v), devices, order[0], dev)
    ensures OneMoreOn(v, dev, AllocateLeast(v, order, lvs[0])) && Fresh(AllocateLeast(v, order, lvs[0]), lvs[1..])
  {
    dev := OneAllocation(v, devices, order, lvs);
  }

  lemma NoDevices(v: Volumes, devices: set<string>, lvs: seq<string>)
    requires IsOrder([], devices) && lvs != [] && Fresh(v, lvs)
    ensures AllocateLeast(v, [], lvs[0]) == v && devices == {} && Fresh(v, lvs[1..])
  {
    assert forall d :: d in devices ==> d in [];
  }

  lemma SomeDevice(order: seq<string>, devices: set<string>)
    requires IsOrder(order, devices) && order != []
    ensures order[0] in devices
  {
    assert order[0] in order;
  }

  lemma OneSetKeepsBound(v: Volumes, devices: set<string>, order: seq<string>, lvs: seq<string>, k: nat)
    requires devices != {} && IsOrder(order, devices) && lvs != [] && Fresh(v, lvs) && k >= 1 && Within(v, devices, k)
    ensures Within(AllocateLeast(v, order, lvs[0]), devices, k) && Fresh(AllocateLeast(v, order, lvs[0]), lvs[1..])
  {
    var dev := OneAllocation(v, devices, order, lvs);
    hide AllocateLeast, Lvs, Exists, IsOrder;
  }

  /** The two allocations of one OSD keep both bounds, although the first alone may break that of the other set. */
  lemma OsdKeepsBounds(v: Volumes, wal: set<string>, db: set<string>, utility: map<string, seq<string>>,
                       names: seq<string>, k: nat)
    requires |names| >= 2 && Fresh(v, names) && k >= 1 && BoundsSurvive(wal, db) && Sees(utility, wal, db)
    requires BothWithin(v, wal, db, k)
    ensures var after := AllocateLeast(AllocateLeast(v, DevicesFor(utility, "wal"), names[0]),
                                       DevicesFor(utility, "db"), names[1]);
      BothWithin(after, wal, db, k) && Fresh(after, names[2..])
  {
    hide AllocateLeast, Fresh, BoundsSurvive, Lvs, IsOrder, DevicesFor;
    assert names[1..][1..] == names[2..];
    var order1, order2 := DevicesFor(utility, "wal"), DevicesFor(utility, "db");
    var between := AllocateLeast(v, order1, names[0]);
    if order1 == [] {
      NoDevices(v, wal, names);
      if order2 == [] {
        NoDevices(v, db, names[1..]);
      } else {
        SomeDevice(order2, db);
        OneSetKeepsBound(v, db, order2, names[1..], k);
      }
    } else if order2 == [] {
      SomeDevice(order1, wal);
      OneSetKeepsBound(v, wal, order1, names, k);
      NoDevices(between, db, names[1..]);
    } else {
      SomeDevice(order1, wal);
      SomeDevice(order2, db);
      var first := PickedDevice(v, wal, order1, names);
      var second := PickedDevice(between, db, order2, names[1..]);
      hide *;
      CountsKeepBounds(v, between, AllocateLeast(between, order2, names[1]), wal, db, k, (order1[0], order2[0]), first,
        second);
    }
  }

  /** OSD after OSD, the write-ahead log devices stay balanced, and so do the database devices. */
  lemma {:induction false} OsdsStayBalanced(v: Volumes, wal: set<string>, db: set<string>,
                                            orders: seq<map<string, seq<string>>>, fsids: seq<string>, k: nat)
    requires |orders| == |fsids| && AllSee(orders, wal, db) && Fresh(v, NamesOf(fsids)) && k >= 1
    requires BoundsSurvive(wal, db) && BothWithin(v, wal, db, k)
    ensures BothWithin(AfterOsds(v, orders, fsids), wal, db, k)
    decreases fsids
  {
    if fsids != [] {
      var names := NamesOf(fsids);
      assert names[2..] == NamesOf(fsids[1..]);
      assert orders[0] in orders;
      ExtraIsTwoAllocations(v, orders[0], fsids[0]);
      hide AfterExtra, AllocateLeast, BothWithin, Fresh, BoundsSurvive, NamesOf, DevicesFor, Sees;
      OsdKeepsBounds(v, wal, db, orders[0], names, k);
      OsdsStayBalanced(AfterExtra(v, orders[0], fsids[0], KINDS), wal, db, orders[1..], fsids[1..], k);
    }
  }

  lemma ExtraIsTwoAllocations(v: Volumes, utility: map<string, seq<string>>, fsid: string)
    ensures AfterExtra(v, utility, fsid, KINDS) ==
      AllocateLeast(AllocateLeast(v, DevicesFor(utility, "wal"), LvName("wal", fsid)),
                    DevicesFor(utility, "db"), LvName("db", fsid))
  {
    hide AllocateLeast, DevicesFor, LvName;
    assert KINDS[1..] == ["db"] && ["db"][1..] == [];
  }

  /** A volume is on the device it was put on, unless it existed, or where it was; nothing else appears or goes. */
  lemma AllocatedExactly(v: Volumes, order: seq<string>, lv: string, d: string)
    ensures var dev := FindLeastUsed(order, Usage(v));
      Lvs(AllocateLeast(v, order, lv), d) == Lvs(v, d) + if dev == Some(d) && !Exists(v, lv) then [lv] else []
    ensures Exists(AllocateLeast(v, order, lv), lv) <==> order != [] || Exists(v, lv)
  {
    var dev, after := FindLeastUsed(order, Usage(v)), AllocateLeast(v, order, lv);
    if dev.Some? {
      if Exists(v, lv) {
        var e :| e in v && lv in v[e];
        assert e in after && lv in after[e];
      } else {
        assert lv in after[dev.value];
      }
    }
  }

  lemma {:induction false} OthersExist(v: Volumes, order: seq<string>, lv: string, other: string)
    requires other != lv
    ensures Exists(AllocateLeast(v, order, lv), other) <==> Exists(v, other)
  {
    var after := AllocateLeast(v, order, lv);
    hide AllocateLeast;
    forall d
      ensures other in Lvs(after, d) <==> other in Lvs(v, d)
    {
      AllocatedExactly(v, order, lv, d);
    }
    ExistsSomewhere(v, other);
    ExistsSomewhere(after, other);
  }

  lemma ExistsSomewhere(v: Volumes, lv: string)
    ensures Exists(v, lv) <==> exists d :: lv in Lvs(v, d)
  {
    if d :| d in v && lv in v[d] {
      assert lv in Lvs(v, d);
    }
  }

  /**
   * Each argument of the command names a device of its kind and the volume of that kind and OSD. The volume is then on
   * that device exactly when it was there before or was nowhere: one that existed elsewhere is named where it is not.
   */
  lemma NamedVolumesExist(v: Volumes, utility: map<string, seq<string>>, fsid: string, a: Argument)
    requires a in Arguments(v, utility, fsid, KINDS)
    ensures a.kind in {"wal", "db"} && a.device in DevicesFor(utility, a.kind) && a.lv == "osd-" + a.kind + "-" + fsid
    ensures a.lv in Lvs(AfterExtra(v, utility, fsid, KINDS), a.device) <==>
      a.lv in Lvs(v, a.device) || !Exists(v, a.lv)
  {
    hide AfterExtra, Arguments, AllocateLeast, DevicesFor, Exists, Lvs;
    var wal, db := DevicesFor(utility, "wal"), DevicesFor(utility, "db");
    var log, data := LvName("wal", fsid), LvName("db", fsid);
    var between := AllocateLeast(v, wal, log);
    ExtraIsTwoAllocations(v, utility, fsid);
    ArgumentsAreTwo(v, utility, fsid, a);
    assert log[4] != data[4];
    AllocatedExactly(v, wal, log, a.device);
    AllocatedExactly(between, db, data, a.device);
    OthersExist(v, wal, log, data);
    if a.kind == "wal" {
      var k := LeastUsedIsFirstMinimum(wal, Usage(v));
    } else {
      var k := LeastUsedIsFirstMinimum(db, Usage(between));
    }
  }

  /** Doing the same OSD again makes no volume, in whatever order the devices are visited then. */
  lemma RepeatMakesNothing(v: Volumes, utility: map<string, seq<string>>, again: map<string, seq<string>>, fsid: string,
                           d: string)
    requires forall kind :: DevicesFor(utility, kind) == [] ==> DevicesFor(again, kind) == []
    ensures var after := AfterExtra(v, utility, fsid, KINDS);
      Lvs(AfterExtra(after, again, fsid, KINDS), d) == Lvs(after, d)
  {
    hide AfterExtra, AllocateLeast, Lvs, DevicesFor, Exists;
    var wal, db := DevicesFor(utility, "wal"), DevicesFor(utility, "db");
    var log, data := LvName("wal", fsid), LvName("db", fsid);
    var between := AllocateLeast(v, wal, log);
    var after := AllocateLeast(between, db, data);
    var wal2, db2 := DevicesFor(again, "wal"), DevicesFor(again, "db");
    var between2 := AllocateLeast(after, wal2, log);
    ExtraIsTwoAllocations(v, utility, fsid);
    ExtraIsTwoAllocations(after, again, fsid);
    assert log[4] != data[4];
    AllocatedExactly(v, wal, log, d);
    AllocatedExactly(between, db, data, d);
    OthersExist(between, db, data, log);
    AllocatedExactly(after, wal2, log, d);
    OthersExist(after, wal2, log, data);
    AllocatedExactly(between2, db2, data, d);
  }

  lemma ArgumentsAreTwo(v: Volumes, utility: map<string, seq<string>>, fsid: string, a: Argument)
    ensures var wal, db := DevicesFor(utility, "wal"), DevicesFor(utility, "db");
      var between := AllocateLeast(v, wal, LvName("wal", fsid));
      var first, second := FindLeastUsed(wal, Usage(v)), FindLeastUsed(db, Usage(between));
      a in Arguments(v, utility, fsid, KINDS) <==>
        (first.Some? && a == Block("wal", first.value, LvName("wal", fsid))) ||
        (second.Some? && a == Block("db", second.value, LvName("db", fsid)))
  {
    hide AllocateLeast, DevicesFor, LvName, FindLeastUsed;
    assert KINDS[1..] == ["db"] && ["db"][1..] == [];
  }

  lemma AllocatedWhereNamed(v: Volumes, order: seq<string>, lvs: seq<string>)
    requires lvs != [] && Fresh(v, lvs)
    ensures var dev := FindLeastUsed(order, Usage(v)); var after := AllocateLeast(v, order, lvs[0]);
      && (dev.Some? ==> dev.value in order && lvs[0] in Lvs(after, dev.value))
      && (forall d, lv :: lv in Lvs(v, d) ==> lv in Lvs(after, d))
      && Fresh(after, lvs[1..])
  {
    if order != [] {
      var k := LeastUsedIsFirstMinimum(order, Usage(v));
      assert lvs[0] in lvs;
      var after := AllocateLeast(v, order, lvs[0]);
      assert after == v[order[k] := Lvs(v, order[k]) + [lvs[0]]];
      forall lv | lv in lvs[1..]
        ensures !Exists(after, lv)
      {
        assert lv in lvs && lv != lvs[0];
        assert !Exists(v, lv);
      }
    }
  }

  // ----- Sets that overlap -----

  /** Volumes with the given counts on all devices of the two sets. */
  function Stock(wal: set<string>, db: set<string>, count: string -> nat): Volumes
  {
    map d | d in wal + db :: seq(count(d), _ => "x")
  }

  lemma StockFacts(wal: set<string>, db: set<string>, count: string -> nat)
    ensures forall d :: d in wal + db ==> |Lvs(Stock(wal, db, count), d)| == count(d)
    ensures Fresh(Stock(wal, db, count), NamesOf([""]))
  {
    assert NamesOf([""]) == [LvName("wal", ""), LvName("db", "")];
    assert LvName("wal", "")[4] == 'w' && LvName("db", "")[4] == 'd';
  }

  /** Counts within one of each other, which the picks of an OSD that visits `front` first take out of this bound. */
  ghost predicate Tilted(wal: set<string>, db: set<string>, front: string, count: string -> nat)
  {
    && Spread(count, wal, 1) && Spread(count, db, 1)
    && forall first, second ::
         Picked(count, wal, front, first) && Picked(OneUp(count, first), db, front, second) ==>
         !BothWithinOne(OneUp(OneUp(count, first), second), wal, db)
  }

  ghost predicate BothWithinOne(count: string -> nat, wal: set<string>, db: set<string>)
  {
    Spread(count, wal, 1) && Spread(count, db, 1)
  }

  /** A log device of its own is passed by when a shared device gets both volumes. */
  lemma OwnLogDevice(wal: set<string>, db: set<string>, front: string, own: string) returns (count: string -> nat)
    requires front in wal && front in db && own in wal && own !in db
    ensures Tilted(wal, db, front, count)
  {
    count := d => if d == front || d !in db then 0 else 1;
    forall first, second | Picked(count, wal, front, first) && Picked(OneUp(count, first), db, front, second)
      ensures !BothWithinOne(OneUp(OneUp(count, first), second), wal, db)
    {
      assert first == second == front;
      assert OneUp(OneUp(count, first), second)(front) > OneUp(OneUp(count, first), second)(own) + 1;
    }
  }

  /** Of two database devices of its own one is left behind. */
  lemma TwoOwnDatabaseDevices(wal: set<string>, db: set<string>, front: string, a: string, b: string)
    returns (count: string -> nat)
    requires front in wal && front in db && a in db && b in db && a !in wal && b !in wal && a != b
    ensures Tilted(wal, db, front, count)
  {
    count := d => if d !in wal then 0 else if d in db then 1 else 2;
    forall first, second | Picked(count, wal, front, first) && Picked(OneUp(count, first), db, front, second)
      ensures !BothWithinOne(OneUp(OneUp(count, first), second), wal, db)
    {
      var left := if second == a then b else a;
      assert count(first) <= count(front) && OneUp(count, first)(second) <= OneUp(count, first)(left);
      assert OneUp(OneUp(count, first), second)(first) > OneUp(OneUp(count, first), second)(left) + 1;
    }
  }

  /** Whenever the bounds need not survive, some counts tilt. */
  lemma TiltedCounts(wal: set<string>, db: set<string>) returns (front: string, count: string -> nat)
    requires !BoundsSurvive(wal, db)
    ensures front in wal && front in db && Tilted(wal, db, front, count)
  {
    front :| front in wal && front in db;
    if wal <= db {
      var a :| a in db - wal;
      assert db - wal != {a};
      var b :| b in db - wal && b != a;
      count := TwoOwnDatabaseDevices(wal, db, front, a, b);
    } else {
      var own :| own in wal && own !in db;
      count := OwnLogDevice(wal, db, front, own);
    }
  }

  /** A pick depends on the counts of the set only. */
  lemma PickedFrom(v: Volumes, count: string -> nat, devices: set<string>, front: string, dev: string)
    requires Picked(Usage(v), devices, front, dev) && front in devices
    requires forall d :: d in devices ==> |Lvs(v, d)| == count(d)
    ensures Picked(count, devices, front, dev)
  {
  }

  lemma WithinIsSpread(v: Volumes, count: string -> nat, devices: set<string>)
    requires forall d :: d in devices ==> |Lvs(v, d)| == count(d)
    ensures Within(v, devices, 1) <==> Spread(count, devices, 1)
  {
  }

  lemma CountsAfter(v: Volumes, count: string -> nat, devices: set<string>, dev: string, after: Volumes)
    requires OneMoreOn(v, dev, after) && forall d :: d in devices ==> |Lvs(v, d)| == count(d)
    ensures forall d :: d in devices ==> |Lvs(after, d)| == OneUp(count, dev)(d)
  {
  }

  lemma TiltedVolumes(v: Volumes, between: Volumes, after: Volumes, wal: set<string>, db: set<string>, front: string,
                      count: string -> nat, first: string, second: string)
    requires Tilted(wal, db, front, count) && front in wal && front in db
    requires forall d :: d in wal + db ==> |Lvs(v, d)| == count(d)
    requires Picked(Usage(v), wal, front, first) && OneMoreOn(v, first, between)
    requires Picked(Usage(between), db, front, second) && OneMoreOn(between, second, after)
    ensures BothWithin(v, wal, db, 1) && !BothWithin(after, wal, db, 1)
  {
    hide Lvs, Usage, OneUp, OneMoreOn, Picked, Spread, Within;
    var once := OneUp(count, first);
    var twice := OneUp(once, second);
    CountsAfter(v, count, wal + db, first, between);
    CountsAfter(between, once, wal + db, second, after);
    PickedFrom(v, count, wal, front, first);
    PickedFrom(between, once, db, front, second);
    assert !BothWithinOne(twice, wal, db);
    WithinIsSpread(v, count, wal);
    WithinIsSpread(v, count, db);
    WithinIsSpread(after, twice, wal);
    WithinIsSpread(after, twice, db);
  }

  lemma TiltedOsd(utility: map<string, seq<string>>, wal: set<string>, db: set<string>, v: Volumes, front: string,
                  count: string -> nat)
    requires Sees(utility, wal, db) && Fresh(v, NamesOf([""])) && front in wal && front in db
    requires DevicesFor(utility, "wal") != [] && DevicesFor(utility, "wal")[0] == front
    requires DevicesFor(utility, "db") != [] && DevicesFor(utility, "db")[0] == front
    requires Tilted(wal, db, front, count) && forall d :: d in wal + db ==> |Lvs(v, d)| == count(d)
    ensures BothWithin(v, wal, db, 1) && !BothWithin(AfterOsds(v, [utility], [""]), wal, db, 1)
  {
    var order1, order2, names := DevicesFor(utility, "wal"), DevicesFor(utility, "db"), NamesOf([""]);
    assert [""][1..] == [] && [utility][1..] == [] && names == [LvName("wal", ""), LvName("db", "")];
    assert AfterOsds(v, [utility], [""]) == AfterExtra(v, utility, "", KINDS);
    hide Tilted, AllocateLeast, AfterExtra, AfterOsds, NamesOf, LvName, Fresh, Lvs, DevicesFor, Picked, OneMoreOn;
    hide IsOrder, BothWithin;
    ExtraIsTwoAllocations(v, utility, "");
    var between := AllocateLeast(v, order1, names[0]);
    var first := PickedDevice(v, wal, order1, names);
    var second := PickedDevice(between, db, order2, names[1..]);
    TiltedVolumes(v, between, AllocateLeast(between, order2, names[1]), wal, db, front, count, first, second);
  }

  /** The bound on both kinds of devices holds OSD after OSD, in whatever orders the sets are visited. */
  ghost predicate AlwaysBalanced(wal: set<string>, db: set<string>)
  {
    forall v: Volumes, orders: seq<map<string, seq<string>>>, fsids: seq<string>, k: nat ::
      |orders| == |fsids| && AllSee(orders, wal, db) && k >= 1 && Fresh(v, NamesOf(fsids)) && BothWithin(v, wal, db, k)
      ==> BothWithin(AfterOsds(v, orders, fsids), wal, db, k)
  }

  lemma SurvivingBounds(wal: set<string>, db: set<string>)
    requires BoundsSurvive(wal, db)
    ensures AlwaysBalanced(wal, db)
  {
    hide Fresh, BoundsSurvive, BothWithin, AfterOsds, AllSee, NamesOf;
    forall v: Volumes, orders: seq<map<string, seq<string>>>, fsids: seq<string>, k: nat |
      |orders| == |fsids| && AllSee(orders, wal, db) && k >= 1 && Fresh(v, NamesOf(fsids)) && BothWithin(v, wal, db, k)
      ensures BothWithin(AfterOsds(v, orders, fsids), wal, db, k)
    {
      OsdsStayBalanced(v, wal, db, orders, fsids, k);
    }
  }

  lemma BrokenBounds(wal: set<string>, db: set<string>) returns (v: Volumes, utility: map<string, seq<string>>)
    requires !BoundsSurvive(wal, db)
    ensures Sees(utility, wal, db) && Fresh(v, NamesOf([""]))
    ensures BothWithin(v, wal, db, 1) && !BothWithin(AfterOsds(v, [utility], [""]), wal, db, 1)
  {
    var front, count := TiltedCounts(wal, db);
    var order1 := OrderFrom(wal, front);
    var order2 := OrderFrom(db, front);
    utility := map["wal" := order1, "db" := order2];
    assert DevicesFor(utility, "wal") == order1 && DevicesFor(utility, "db") == order2;
    v := Stock(wal, db, count);
    StockFacts(wal, db, count);
    hide Tilted, Stock, Fresh, AfterOsds, BothWithin, IsOrder, DevicesFor, Lvs, BoundsSurvive, NamesOf;
    TiltedOsd(utility, wal, db, v, front, count);
  }

  /** For which sets the bounds survive: exactly. */
  lemma BoundsSurviveExactly(wal: set<string>, db: set<string>)
    ensures AlwaysBalanced(wal, db) <==> BoundsSurvive(wal, db)
  {
    hide BoundsSurvive, Fresh, Sees, BothWithin, AfterOsds, NamesOf;
    if BoundsSurvive(wal, db) {
      SurvivingBounds(wal, db);
    } else {
      var v, utility := BrokenBounds(wal, db);
      assert AllSee([utility], wal, db);
    }
  }

  const Overlapping: map<string, seq<string>> := map["wal" := ["A", "B", "C"], "db" := ["C"]]

  const LogDevices := {"A", "B", "C"}

  ghost predicate Counts(v: Volumes, a: nat, b: nat, c: nat)
  {
    |Lvs(v, "A")| == a && |Lvs(v, "B")| == b && |Lvs(v, "C")| == c
  }

  lemma PickOfThree(v: Volumes, a: nat, b: nat, c: nat)
    requires Counts(v, a, b, c)
    ensures FindLeastUsed(["A", "B", "C"], Usage(v)) ==
      Some(if a <= b && a <= c then "A" else if b <= c then "B" else "C")
    ensures FindLeastUsed(["C"], Usage(v)) == Some("C")
  {
    var abc := ["A", "B", "C"];
    assert abc[..2] == ["A", "B"] && abc[..2][..1] == ["A"] && ["A"][..0] == [] && ["C"][..0] == [];
    assert FindLeastUsed(["A"], Usage(v)) == Some("A");
    assert FindLeastUsed(["A", "B"], Usage(v)) == Some(if b < a then "B" else "A") by {
      assert ["A", "B"][..1] == ["A"];
    }
  }

  /** One OSD: its log goes to the least used of A, B and C, and its database to C. */
  lemma OneOsdOverlapping(v: Volumes, fsid: string, names: seq<string>, a: nat, b: nat, c: nat) returns (after: Volumes)
    requires Counts(v, a, b, c) && |names| >= 2 && Fresh(v, names)
    requires names[0] == LvName("wal", fsid) && names[1] == LvName("db", fsid)
    ensures after == AfterExtra(v, Overlapping, fsid, KINDS) && Fresh(after, names[2..])
    ensures Counts(after, a + if a <= b && a <= c then 1 else 0, b + if !(a <= b && a <= c) && b <= c then 1 else 0,
                   c + if (a <= b && a <= c) || b <= c then 1 else 2)
  {
    ExtraIsTwoAllocations(v, Overlapping, fsid);
    assert DevicesFor(Overlapping, "wal") == ["A", "B", "C"] && DevicesFor(Overlapping, "db") == ["C"];
    hide AfterExtra, LvName, DevicesFor, Fresh, FindLeastUsed, Exists;
    PickOfThree(v, a, b, c);
    AllocationCounts(v, ["A", "B", "C"], names, a, b, c);
    var between := AllocateLeast(v, ["A", "B", "C"], names[0]);
    var b1, c1 := |Lvs(between, "B")|, |Lvs(between, "C")|;
    PickOfThree(between, |Lvs(between, "A")|, b1, c1);
    AllocationCounts(between, ["C"], names[1..], |Lvs(between, "A")|, b1, c1);
    assert names[1..][1..] == names[2..];
    after := AllocateLeast(between, ["C"], names[1]);
  }

  lemma AllocationCounts(v: Volumes, devices: seq<string>, lvs: seq<string>, a: nat, b: nat, c: nat)
    requires lvs != [] && Fresh(v, lvs) && Counts(v, a, b, c)
    requires FindLeastUsed(devices, Usage(v)).Some?
    ensures var dev := FindLeastUsed(devices, Usage(v)).value;
      var after := AllocateLeast(v, devices, lvs[0]);
      && Counts(after, a + if dev == "A" then 1 else 0, b + if dev == "B" then 1 else 0,
                c + if dev == "C" then 1 else 0)
      && Fresh(after, lvs[1..])
  {
    var dev := FindLeastUsed(devices, Usage(v)).value;
    assert devices != [] by {
      assert FindLeastUsed([], Usage(v)) == None;
    }
    AllocatedWhereNamed(v, devices, lvs);
    assert lvs[0] in lvs;
  }

  function TwoNames(fsid: string): seq<string>
  {
    [LvName("wal", fsid), LvName("db", fsid)]
  }

  lemma ThreeOsds(v: Volumes, utility: map<string, seq<string>>, f: string, g: string, h: string)
    ensures NamesOf([f, g, h]) == TwoNames(f) + TwoNames(g) + TwoNames(h)
    ensures AfterOsds(v, [utility, utility, utility], [f, g, h]) ==
      AfterExtra(AfterExtra(AfterExtra(v, utility, f, KINDS), utility, g, KINDS), utility, h, KINDS)
  {
    hide AfterExtra, LvName;
    assert [f, g, h][1..] == [g, h] && [g, h][1..] == [h] && [h][1..] == [];
    assert NamesOf([h]) == TwoNames(h);
    assert NamesOf([g, h]) == TwoNames(g) + TwoNames(h);
    var v1 := AfterExtra(v, utility, f, KINDS);
    var v2 := AfterExtra(v1, utility, g, KINDS);
    var v3 := AfterExtra(v2, utility, h, KINDS);
    assert [utility, utility, utility][1..] == [utility, utility] && [utility, utility][1..] == [utility];
    assert [utility][1..] == [];
    assert AfterOsds(v3, [], []) == v3;
    assert AfterOsds(v2, [utility], [h]) == v3;
    assert AfterOsds(v1, [utility, utility], [g, h]) == v3;
  }

  /** Three OSDs from empty devices: one log device ends with one volume and another with three. */
  lemma OverlapUnbalances(f: string, g: string, h: string)
    requires Fresh(map[], NamesOf([f, g, h]))
    ensures var after := AfterOsds(map[], [Overlapping, Overlapping, Overlapping], [f, g, h]);
      Counts(after, 2, 1, 3) && Within(map[], LogDevices, 1) && !Within(after, LogDevices, 1)
    ensures Sees(Overlapping, LogDevices, {"C"})
  {
    ThreeOsds(map[], Overlapping, f, g, h);
    hide AfterExtra, LvName, Fresh, NamesOf, AfterOsds, TwoNames;
    var third := CountsAfterThree(f, g, h);
    OneAgainstThree(third);
  }

  lemma CountsAfterThree(f: string, g: string, h: string) returns (third: Volumes)
    requires Fresh(map[], TwoNames(f) + TwoNames(g) + TwoNames(h))
    ensures third ==
      AfterExtra(AfterExtra(AfterExtra(map[], Overlapping, f, KINDS), Overlapping, g, KINDS), Overlapping, h, KINDS)
    ensures Counts(third, 2, 1, 3)
  {
    var names, rest := TwoNames(f) + TwoNames(g) + TwoNames(h), TwoNames(g) + TwoNames(h);
    var last := TwoNames(h);
    assert names[2..] == rest && rest[2..] == last;
    assert names[0] == LvName("wal", f) && names[1] == LvName("db", f);
    assert rest[0] == LvName("wal", g) && rest[1] == LvName("db", g);
    assert last[0] == LvName("wal", h) && last[1] == LvName("db", h);
    assert Counts(map[], 0, 0, 0);
    hide *;
    var first := OneOsdOverlapping(map[], f, names, 0, 0, 0);
    var second := OneOsdOverlapping(first, g, rest, 1, 0, 1);
    third := OneOsdOverlapping(second, h, last, 1, 1, 2);
  }

  lemma OneAgainstThree(v: Volumes)
    requires Counts(v, 2, 1, 3)
    ensures Within(map[], LogDevices, 1) && !Within(v, LogDevices, 1)
  {
    assert "B" in LogDevices && "C" in LogDevices;
  }

  lemma TwoAllocations(v: Volumes, utility: map<string, seq<string>>, fsid: string)
    ensures Fresh(map[], TwoNames(fsid))
    ensures AfterOsds(v, [utility], [fsid]) ==
      AllocateLeast(AllocateLeast(v, DevicesFor(utility, "wal"), LvName("wal", fsid)),
                    DevicesFor(utility, "db"), LvName("db", fsid))
  {
    assert LvName("wal", fsid)[4] == 'w' && LvName("db", fsid)[4] == 'd';
    hide AfterExtra, AllocateLeast, LvName, DevicesFor;
    var after := AfterExtra(v, utility, fsid, KINDS);
    assert [fsid][1..] == [] && [utility][1..] == [] && AfterOsds(after, [], []) == after;
    ExtraIsTwoAllocations(v, utility, fsid);
  }

  /** The first OSD on empty devices: its log goes to the log device that is visited first. */
  lemma FirstOsd(utility: map<string, seq<string>>, fsid: string, wal: set<string>, only: string)
    requires Sees(utility, wal, {only}) && wal != {}
    ensures DevicesFor(utility, "wal") != []
    ensures var first := DevicesFor(utility, "wal")[0];
      forall d :: |Lvs(AfterOsds(map[], [utility], [fsid]), d)| ==
        (if d == first then 1 else 0) + (if d == only then 1 else 0)
  {
    var order1, order2, names := DevicesFor(utility, "wal"), DevicesFor(utility, "db"), TwoNames(fsid);
    assert forall d :: Lvs(map[], d) == [];
    TwoAllocations(map[], utility, fsid);
    hide AllocateLeast, AfterOsds, LvName, DevicesFor, IsOrder, Fresh;
    var between := AllocateLeast(map[], order1, names[0]);
    var first := OneAllocation(map[], wal, order1, names);
    var second := OneAllocation(between, {only}, order2, names[1..]);
    assert first == order1[0] && second == only;
  }

  /** Log devices A and C, database device C: the order of one visit decides whether the first OSD is out of balance. */
  lemma OrderDecides(fsid: string)
    ensures var utility := map["wal" := ["A", "C"], "db" := ["C"]];
      Sees(utility, {"A", "C"}, {"C"}) && Counts(AfterOsds(map[], [utility], [fsid]), 1, 0, 1)
    ensures var utility := map["wal" := ["C", "A"], "db" := ["C"]];
      Sees(utility, {"A", "C"}, {"C"}) && Counts(AfterOsds(map[], [utility], [fsid]), 0, 0, 2)
  {
    FirstOsd(map["wal" := ["A", "C"], "db" := ["C"]], fsid, {"A", "C"}, "C");
    FirstOsd(map["wal" := ["C", "A"], "db" := ["C"]], fsid, {"A", "C"}, "C");
  }
}
