/** Frame placement: how a frame's slots step through the device's regions, and the
    rounding that keeps a runtime routine's frame inside one bank. */
module Placement {
  import opened Wrappers
  import opened Devices

  /** `width` bytes starting at `base` lie inside region `i`. */
  ghost predicate InRegion(d: Device, i: nat, base: nat, width: nat) {
    i < |d.banks| && d.banks[i].lo <= base <= d.banks[i].hi && base + width <= d.banks[i].hi + 1
  }

  ghost predicate Feasible(d: Device, base: nat, width: nat) {
    exists i :: InRegion(d, i, base, width)
  }

  /** The placement of a slot, searching the regions from `i` on. */
  function Place(d: Device, addr: nat, width: nat, i: nat := 0): Option<nat>
    requires i <= |d.banks|
    decreases |d.banks| - i
  {
    if i == |d.banks| then None
    else
      var base := Max(addr, d.banks[i].lo);
      if addr <= d.banks[i].hi && base + width <= d.banks[i].hi + 1 then Some(base)
      else Place(d, addr, width, i + 1)
  }

  /** Placement is the least feasible address at or above `addr`, and fails only when there is none. */
  lemma {:induction false} PlaceIsLeast(d: Device, addr: nat, width: nat, i: nat)
    requires d.Valid() && i <= |d.banks|
    ensures var r := Place(d, addr, width, i);
      && (r.Some? ==>
            && r.value >= addr
            && (exists k :: i <= k && InRegion(d, k, r.value, width))
            && (forall c, k :: addr <= c < r.value && i <= k ==> !InRegion(d, k, c, width)))
      && (r.None? ==> forall c, k :: addr <= c && i <= k ==> !InRegion(d, k, c, width))
    decreases |d.banks| - i
  {
    if i < |d.banks| {
      var base := Max(addr, d.banks[i].lo);
      if addr <= d.banks[i].hi && base + width <= d.banks[i].hi + 1 {
        assert InRegion(d, i, base, width);
      } else {
        PlaceIsLeast(d, addr, width, i + 1);
      }
    }
  }

  /** A slot placed from a higher address never lands lower. */
  lemma PlaceMonotone(d: Device, a: nat, b: nat, width: nat)
    requires d.Valid() && a <= b && Place(d, b, width).Some?
    ensures Place(d, a, width).Some? && a <= Place(d, a, width).value <= Place(d, b, width).value
  {
    PlaceIsLeast(d, a, width, 0);
    PlaceIsLeast(d, b, width, 0);
  }

  /** The loop of the source; `None` is its panic past the last region. */
  method PlaceContiguous(d: Device, addr: nat, width: nat) returns (r: Option<nat>)
    requires d.Valid() && width <= 255
    ensures r == Place(d, addr, width)
    ensures r.Some? ==> r.value + width <= 0xFFFF
  {
    var a := addr;
    ghost var k: nat := 0;  // the regions before k have been tried
    while true
      invariant k <= |d.banks|
      invariant k == 0 ==> a == addr
      invariant k > 0 ==> a == d.banks[k - 1].hi + 1 && addr < a
      invariant Place(d, addr, width) == Place(d, addr, width, k)
      decreases |d.banks| - k
    {
      var i := d.RegionIndex(a);
      if i.None? {
        SkipBelow(d, addr, width, k, |d.banks|);
        return None;
      }
      if k > 0 {
        assert i.value == k by {
          assert d.banks[k - 1].hi < a;
          assert i.value > k - 1;
        }
      }
      SkipBelow(d, addr, width, k, i.value);
      var reg := d.banks[i.value];
      var base := Max(a, reg.lo);
      assert base == Max(addr, reg.lo);
      if base + width - 1 <= reg.hi {
        return Some(base);
      }
      a := reg.hi + 1;
      k := i.value + 1;
    }
  }

  lemma SkipBelow(d: Device, addr: nat, width: nat, lo: nat, hi: nat)
    requires d.Valid() && lo <= hi <= |d.banks|
    requires forall k :: lo <= k < hi ==> d.banks[k].hi < addr
    ensures Place(d, addr, width, lo) == Place(d, addr, width, hi)
    decreases hi - lo
  {
    if lo < hi {
      SkipBelow(d, addr, width, lo + 1, hi);
    }
  }

  /** The address just past a frame whose slots, in order, are placed from `base`. */
  function FrameEnd(d: Device, base: nat, widths: seq<nat>): Option<nat>
    decreases |widths|
  {
    if widths == [] then Some(base)
    else match Place(d, base, widths[0])
      case None => None
      case Some(b) => FrameEnd(d, b + widths[0], widths[1..])
  }

  /** The address of each slot of a frame that fits. */
  function SlotAddrs(d: Device, base: nat, widths: seq<nat>): (r: seq<nat>)
    requires FrameEnd(d, base, widths).Some?
    ensures |r| == |widths|
    decreases |widths|
  {
    if widths == [] then []
    else
      var b := Place(d, base, widths[0]).value;
      [b] + SlotAddrs(d, b + widths[0], widths[1..])
  }

  /** Slots are placed in order, apart from each other, each inside one region, all between
      the base and the frame end. */
  lemma {:induction false} SlotsInOrder(d: Device, base: nat, widths: seq<nat>)
    requires d.Valid() && FrameEnd(d, base, widths).Some?
    ensures base <= FrameEnd(d, base, widths).value
    ensures forall k :: 0 <= k < |widths| ==>
      && base <= SlotAddrs(d, base, widths)[k]
      && SlotAddrs(d, base, widths)[k] + widths[k] <= FrameEnd(d, base, widths).value
      && Feasible(d, SlotAddrs(d, base, widths)[k], widths[k])
    ensures forall j, k :: 0 <= j < k < |widths| ==>
      SlotAddrs(d, base, widths)[j] + widths[j] <= SlotAddrs(d, base, widths)[k]
    decreases |widths|
  {
    if widths != [] {
      PlaceIsLeast(d, base, widths[0], 0);
      var b := Place(d, base, widths[0]).value;
      SlotsInOrder(d, b + widths[0], widths[1..]);
      var rest := SlotAddrs(d, b + widths[0], widths[1..]);
      assert SlotAddrs(d, base, widths) == [b] + rest;
    }
  }

  /** Cutting a frame after slot `k` ends exactly past that slot. */
  lemma {:induction false} PrefixEnd(d: Device, base: nat, widths: seq<nat>, k: nat)
    requires FrameEnd(d, base, widths).Some? && k < |widths|
    ensures FrameEnd(d, base, widths[..k + 1]) == Some(SlotAddrs(d, base, widths)[k] + widths[k])
    decreases |widths|
  {
    var b := Place(d, base, widths[0]).value;
    assert widths[..k + 1][1..] == widths[1..][..k];
    if k > 0 {
      PrefixEnd(d, b + widths[0], widths[1..], k - 1);
      assert SlotAddrs(d, base, widths) == [b] + SlotAddrs(d, b + widths[0], widths[1..]);
    }
  }

  lemma {:induction false} FrameEndSnoc(d: Device, base: nat, widths: seq<nat>, w: nat)
    ensures FrameEnd(d, base, widths + [w]) ==
            match FrameEnd(d, base, widths)
            case None => None
            case Some(e) => match Place(d, e, w) case None => None case Some(b) => Some(b + w)
    decreases |widths|
  {
    if widths == [] {
      assert widths + [w] == [w];
    } else {
      assert (widths + [w])[1..] == widths[1..] + [w];
      if Place(d, base, widths[0]).Some? {
        FrameEndSnoc(d, Place(d, base, widths[0]).value + widths[0], widths[1..], w);
      }
    }
  }

  lemma {:induction false} FrameEndNonePrefix(d: Device, base: nat, widths: seq<nat>, k: nat)
    requires k <= |widths| && FrameEnd(d, base, widths[..k]).None?
    ensures FrameEnd(d, base, widths).None?
    decreases |widths|
  {
    if k > 0 && Place(d, base, widths[0]).Some? {
      assert widths[..k][1..] == widths[1..][..k - 1];
      FrameEndNonePrefix(d, Place(d, base, widths[0]).value + widths[0], widths[1..], k - 1);
    }
  }

  /** The source's accumulation over the slots. */
  method ComputeFrameEnd(d: Device, base: nat, widths: seq<nat>) returns (r: Option<nat>)
    requires d.Valid() && forall k :: 0 <= k < |widths| ==> widths[k] <= 255
    ensures r == FrameEnd(d, base, widths)
  {
    var addr := base;
    for k := 0 to |widths|
      invariant FrameEnd(d, base, widths[..k]) == Some(addr)
    {
      FrameEndSnoc(d, base, widths[..k], widths[k]);
      assert widths[..k + 1] == widths[..k] + [widths[k]];
      var p := PlaceContiguous(d, addr, widths[k]);
      if p.None? {
        FrameEndNonePrefix(d, base, widths, k + 1);
        return None;
      }
      addr := p.value + widths[k];
    }
    assert widths[..|widths|] == widths;
    r := Some(addr);
  }

  // ---- Runtime routines --------------------------------------------------------------

  function Sum(widths: seq<nat>): nat {
    if widths == [] then 0 else widths[0] + Sum(widths[1..])
  }

  /** The last address of the bank holding `addr`, as bank selects see it: the region's end,
      and on PIC18 no further than the end of the 256-byte page. `region` is the region
      serving `addr`. */
  function BankEnd(d: Device, addr: nat, region: Region): nat {
    if d.core.Pic18? then Min(addr - addr % 256 + 255, region.hi) else region.hi
  }

  /** The base a routine's frame is moved to, or `None` when the device has no bank left. */
  method RoutineBase(d: Device, base: nat, widths: seq<nat>) returns (r: Option<nat>)
    requires d.Valid() && forall k :: 0 <= k < |widths| ==> widths[k] <= 255
    ensures r == SnappedBase(d, base, widths)
  {
    var ri := d.RegionIndex(base);
    if ri.None? { return None; }
    var regionEnd := d.banks[ri.value].hi;
    var end := ComputeFrameEnd(d, base, widths);
    if end.None? { return None; }
    if d.core.Pic18? {
      var bankEnd := Min(base - base % 256 + 255, regionEnd);
      if end.value <= bankEnd + 1 { return Some(base); }
      var next := base - base % 256 + 256;
      var nr := d.RegionIndex(next);
      if nr.None? { return None; }
      return Some(Max(next, d.banks[nr.value].lo));
    }
    if end.value <= regionEnd + 1 { return Some(base); }
    var nr := d.RegionIndex(regionEnd + 1);
    if nr.None? { return None; }
    return Some(d.banks[nr.value].lo);
  }

  function SnappedBase(d: Device, base: nat, widths: seq<nat>): Option<nat> {
    match (d.RegionIndex(base), FrameEnd(d, base, widths))
    case (Some(i), Some(end)) =>
      if end - 1 <= BankEnd(d, base, d.banks[i]) then Some(base)
      else
        var next := if d.core.Pic18? then base - base % 256 + 256 else d.banks[i].hi + 1;
        (match d.RegionIndex(next)
         case None => None
         case Some(j) => Some(if d.core.Pic18? then Max(next, d.banks[j].lo) else d.banks[j].lo))
    case _ => None
  }

  /** All slots of the frame at `base` lie in the one bank that serves `base`. */
  ghost predicate OneBank(d: Device, base: nat, widths: seq<nat>)
    requires FrameEnd(d, base, widths).Some?
  {
    exists i :: 0 <= i < |d.banks| && d.RegionIndex(base) == Some(i) &&
      forall k :: 0 <= k < |widths| ==>
        d.banks[i].lo <= SlotAddrs(d, base, widths)[k]
        && SlotAddrs(d, base, widths)[k] + widths[k] <= BankEnd(d, base, d.banks[i]) + 1
  }

  /** From inside a region, a frame whose bytes fit what is left of the region is placed
      contiguously. */
  lemma {:induction false} ContiguousInside(d: Device, base: nat, widths: seq<nat>, i: nat)
    requires d.Valid() && i < |d.banks| && d.banks[i].lo <= base
    requires base + Sum(widths) <= d.banks[i].hi + 1
    requires forall k :: 0 <= k < |widths| ==> widths[k] > 0
    ensures FrameEnd(d, base, widths) == Some(base + Sum(widths))
    decreases |widths|
  {
    if widths != [] {
      PlaceInside(d, base, widths[0], i, 0);
      ContiguousInside(d, base + widths[0], widths[1..], i);
    }
  }

  lemma {:induction false} PlaceInside(d: Device, base: nat, width: nat, i: nat, from: nat)
    requires d.Valid() && from <= i < |d.banks| && InRegion(d, i, base, width)
    ensures Place(d, base, width, from) == Some(base)
    decreases i - from
  {
    if from < i {
      assert d.banks[from].hi < d.banks[i].lo;
      PlaceInside(d, base, width, i, from + 1);
    }
  }

  /** A routine's base is never lowered, and when the frame's bytes fit the bank the base
      ends up in, no slot leaves that bank. A base that was not moved needs no such test:
      its frame was found to fit. */
  lemma RoutineStaysInOneBank(d: Device, base: nat, widths: seq<nat>)
    requires d.Valid() && |widths| > 0 && (forall k :: 0 <= k < |widths| ==> widths[k] > 0)
    requires SnappedBase(d, base, widths).Some?
    ensures var b := SnappedBase(d, base, widths).value;
      && b >= base
      && d.RegionIndex(b).Some?
      && (b == base || b + Sum(widths) <= BankEnd(d, b, d.banks[d.RegionIndex(b).value]) + 1 ==>
           FrameEnd(d, b, widths).Some? && OneBank(d, b, widths))
  {
    var b := SnappedBase(d, base, widths).value;
    var i := d.RegionIndex(base).value;
    var end := FrameEnd(d, base, widths).value;
    if end - 1 <= BankEnd(d, base, d.banks[i]) {
      SlotsInOrder(d, b, widths);
      FrameAboveRegionStart(d, b, widths, i);
    } else {
      SnapTarget(d, base, widths);
      var j := d.RegionIndex(b).value;
      if b + Sum(widths) <= BankEnd(d, b, d.banks[j]) + 1 {
        ContiguousInside(d, b, widths, j);
        SlotsInOrder(d, b, widths);
        FrameAboveRegionStart(d, b, widths, j);
      }
    }
  }

  /** A base that is moved lands strictly higher, inside the region that serves it. */
  lemma SnapTarget(d: Device, base: nat, widths: seq<nat>)
    requires d.Valid() && SnappedBase(d, base, widths).Some?
    requires FrameEnd(d, base, widths).value - 1 > BankEnd(d, base, d.banks[d.RegionIndex(base).value])
    ensures var b := SnappedBase(d, base, widths).value;
      b > base && d.RegionIndex(b).Some? && d.banks[d.RegionIndex(b).value].lo <= b
  {
    hide FrameEnd;
    var b := SnappedBase(d, base, widths).value;
    var i := d.RegionIndex(base).value;
    var next := if d.core.Pic18? then base - base % 256 + 256 else d.banks[i].hi + 1;
    var j := d.RegionIndex(next).value;
    if !d.core.Pic18? {
      assert j > i;
      assert d.banks[i].hi < d.banks[j].lo;
    }
    RegionIndexIs(d, b, j, 0);
  }

  ghost predicate InSomeRegion(d: Device, a: nat) {
    exists k :: 0 <= k < |d.banks| && d.banks[k].lo <= a <= d.banks[k].hi
  }

  /** Where the search for another bank starts: behind the region, or at the next 256-byte bank. */
  function NextBank(d: Device, base: nat, i: nat): nat
    requires i < |d.banks|
  {
    if d.core.Pic18? then base - base % 256 + 256 else d.banks[i].hi + 1
  }

  /** A base stays exactly when the frame there is in one bank; else it moves to the first byte
      of the device at or past the next bank, and there is none exactly when it fails. */
  lemma SnapExact(d: Device, base: nat, widths: seq<nat>)
    requires d.Valid() && |widths| > 0 && (forall k :: 0 <= k < |widths| ==> widths[k] > 0)
    requires FrameEnd(d, base, widths).Some?
    ensures d.RegionIndex(base).Some?
    ensures OneBank(d, base, widths) ==> SnappedBase(d, base, widths) == Some(base)
    ensures !OneBank(d, base, widths) ==>
      var r := SnappedBase(d, base, widths); var next := NextBank(d, base, d.RegionIndex(base).value);
      && (r.Some? ==> next <= r.value && InSomeRegion(d, r.value)
                      && forall a: nat :: next <= a < r.value ==> !InSomeRegion(d, a))
      && (r.None? ==> forall a: nat :: next <= a ==> !InSomeRegion(d, a))
  {
    FrameInDevice(d, base, widths);
    OneBankIs(d, base, widths);
    SnapIs(d, base, widths);
    hide FrameEnd, SlotAddrs, OneBank, InSomeRegion, SnappedBase, BankEnd, NextBank;
    LandsFirst(d, NextBank(d, base, d.RegionIndex(base).value));
  }

  lemma SnapIs(d: Device, base: nat, widths: seq<nat>)
    requires d.Valid() && FrameEnd(d, base, widths).Some? && d.RegionIndex(base).Some?
    ensures var i := d.RegionIndex(base).value; var next := NextBank(d, base, i);
      SnappedBase(d, base, widths) ==
        if FrameEnd(d, base, widths).value - 1 <= BankEnd(d, base, d.banks[i]) then Some(base)
        else match d.RegionIndex(next)
             case None => None
             case Some(j) => Some(Max(next, d.banks[j].lo))
  {
    hide FrameEnd, BankEnd, InSomeRegion;
    LandsFirst(d, NextBank(d, base, d.RegionIndex(base).value));
  }

  /** The frame is in one bank exactly when its last byte is. */
  lemma OneBankIs(d: Device, base: nat, widths: seq<nat>)
    requires d.Valid() && |widths| > 0 && (forall k :: 0 <= k < |widths| ==> widths[k] > 0)
    requires FrameEnd(d, base, widths).Some? && d.RegionIndex(base).Some?
    ensures OneBank(d, base, widths) <==>
      FrameEnd(d, base, widths).value - 1 <= BankEnd(d, base, d.banks[d.RegionIndex(base).value])
  {
    hide FrameEnd, BankEnd;
    var n := |widths| - 1;
    PrefixEnd(d, base, widths, n);
    assert widths[..n + 1] == widths;
    SlotsInOrder(d, base, widths);
    FrameAboveRegionStart(d, base, widths, d.RegionIndex(base).value);
  }

  lemma FrameInDevice(d: Device, base: nat, widths: seq<nat>)
    requires d.Valid() && |widths| > 0 && FrameEnd(d, base, widths).Some?
    ensures d.RegionIndex(base).Some?
  {
    PlaceIsLeast(d, base, widths[0], 0);
  }

  /** The first byte of the device at or past `next`. */
  lemma LandsFirst(d: Device, next: nat)
    requires d.Valid()
    ensures match d.RegionIndex(next)
            case Some(j) =>
              var b := Max(next, d.banks[j].lo);
              InSomeRegion(d, b) && forall a: nat :: next <= a < b ==> !InSomeRegion(d, a)
            case None => forall a: nat :: next <= a ==> !InSomeRegion(d, a)
    ensures forall i :: 0 <= i < |d.banks| && next == d.banks[i].hi + 1 && d.RegionIndex(next).Some? ==>
      next <= d.banks[d.RegionIndex(next).value].lo
  {
    match d.RegionIndex(next)
    case None =>
    case Some(j) =>
      var b := Max(next, d.banks[j].lo);
      assert d.banks[j].lo <= b <= d.banks[j].hi;
      forall a: nat | next <= a < b ensures !InSomeRegion(d, a) {
        forall k | 0 <= k < |d.banks| ensures !(d.banks[k].lo <= a <= d.banks[k].hi) {
          if k > j { assert d.banks[j].hi < d.banks[k].lo; }
        }
      }
      forall i | 0 <= i < |d.banks| && next == d.banks[i].hi + 1 ensures next <= d.banks[j].lo {
        if i < j { assert d.banks[i].hi < d.banks[j].lo; }
      }
  }

  lemma {:induction false} RegionIndexIs(d: Device, addr: nat, j: nat, from: nat)
    requires d.Valid() && from <= j < |d.banks| && d.banks[j].lo <= addr <= d.banks[j].hi
    ensures d.RegionIndex(addr, from) == Some(j)
    decreases j - from
  {
    if from < j {
      assert d.banks[from].hi < d.banks[j].lo;
      RegionIndexIs(d, addr, j, from + 1);
    }
  }

  lemma {:induction false} FrameAboveRegionStart(d: Device, base: nat, widths: seq<nat>, i: nat)
    requires d.Valid() && d.RegionIndex(base) == Some(i) && FrameEnd(d, base, widths).Some?
    requires forall k :: 0 <= k < |widths| ==> widths[k] > 0
    ensures forall k :: 0 <= k < |widths| ==> d.banks[i].lo <= SlotAddrs(d, base, widths)[k]
  {
    if widths != [] {
      PlaceIsLeast(d, base, widths[0], 0);
      var b := Place(d, base, widths[0]).value;
      var r :| 0 <= r && InRegion(d, r, b, widths[0]);
      assert i <= r;
      SlotsInOrder(d, b + widths[0], widths[1..]);
      assert d.banks[i].lo <= b;
    }
  }
}
