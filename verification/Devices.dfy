/** The memory map of a part: its banked general-purpose regions and the bank an address selects. */
module Devices {
  import opened Wrappers

  datatype Core = Pic14 | Pic18 | Pic14e | PicBaseline

  /** An inclusive address range. */
  datatype Region = Region(lo: nat, hi: nat)

  /** The answer of `BankOf`; `Illegal` is an address no stage may emit (the source panics). */
  datatype BankAnswer = Bank(n: nat) | AnyBank | Illegal

  const MIRRORED_PIC14: set<nat> := {0x00, 0x02, 0x03, 0x04, 0x0A, 0x0B}
  const MIRRORED_PIC14E: set<nat> := {0, 1, 2, 3, 4, 5, 6, 7, 8, 9, 0x0A, 0x0B}
  const MIRRORED_BASELINE: set<nat> := {0, 1, 2, 3, 4, 5, 6}

  datatype Device = Device(
    core: Core,
    banks: seq<Region>,
    commonRam: Option<Region>,
    accessBank: Option<Region>,
    fixedRetval: Option<Region>,
    isrWShadow: Option<nat>)
  {
    /** What the device table's build step checks: the regions are non-empty, sorted and
        disjoint. The upper bound keeps every frame sum below inside 16 bits. */
    ghost predicate Valid() {
      && |banks| > 0
      && (forall i :: 0 <= i < |banks| ==> banks[i].lo <= banks[i].hi <= 0xFEFF)
      && (forall i, j :: 0 <= i < j < |banks| ==> banks[i].hi < banks[j].lo)
    }

    function GprStart(): nat
      requires |banks| > 0
    {
      banks[0].lo
    }

    /** The index of the first region at or after `i` whose end is not below `addr`. */
    function RegionIndex(addr: nat, i: nat := 0): (r: Option<nat>)
      requires i <= |banks|
      ensures r.Some? ==> i <= r.value < |banks| && addr <= banks[r.value].hi
      ensures r.Some? ==> forall k :: i <= k < r.value ==> banks[k].hi < addr
      ensures r.None? ==> forall k :: i <= k < |banks| ==> banks[k].hi < addr
      decreases |banks| - i
    {
      if i == |banks| then None
      else if addr <= banks[i].hi then Some(i)
      else RegionIndex(addr, i + 1)
    }

    /** The region holding `addr`, by position. */
    function HoldingIndex(addr: nat, i: nat := 0): (r: Option<nat>)
      requires i <= |banks|
      ensures r.Some? ==> i <= r.value < |banks| && banks[r.value].lo <= addr <= banks[r.value].hi
      ensures r.None? ==> forall k :: i <= k < |banks| ==> !(banks[k].lo <= addr <= banks[k].hi)
      decreases |banks| - i
    {
      if i == |banks| then None
      else if banks[i].lo <= addr <= banks[i].hi then Some(i)
      else HoldingIndex(addr, i + 1)
    }

    function BankOf(addr: nat): BankAnswer
      requires |banks| > 0
    {
      if commonRam.Some? && commonRam.value.lo <= addr <= commonRam.value.hi then AnyBank
      else if fixedRetval.Some? && fixedRetval.value.lo <= addr <= fixedRetval.value.hi then AnyBank
      else if isrWShadow.Some? && addr % 128 == isrWShadow.value % 128 then AnyBank
      else
        match HoldingIndex(addr)
        case Some(i) => Bank(i)
        case None =>
          if addr < GprStart() then
            var mirrored := match core
              case Pic14e => MIRRORED_PIC14E
              case PicBaseline => MIRRORED_BASELINE
              case _ => MIRRORED_PIC14;
            if addr in mirrored then AnyBank else Bank(0)
          else if core.Pic14? || core.Pic14e? then
            if commonRam.Some? && commonRam.value.lo <= addr % 128 <= commonRam.value.hi then Illegal
            else Bank(addr / 128)
          else Illegal
    }
  }
}
