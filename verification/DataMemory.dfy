/** The banked data memory of a PIC14 or PIC14E part, on its own terms: which byte an access
    reaches, and that every access of the rewritten text reaches the byte its line named. */
module DataMemory {
  import opened Wrappers
  import opened Devices
  import opened BankText
  import opened BankAnalysis
  import opened BankScan
  import opened BankMachine
  import opened BankSoundness

  // ---- The memory --------------------------------------------------------------------

  /** A byte of data memory: one that answers in every bank, or one of a single bank. */
  datatype Cell = Shared(off: nat) | Banked(bank: nat, off: nat)

  /** The registers that the core repeats in every bank. */
  predicate CoreRegister(core: Core, off: nat) {
    if core.Pic14e? then off <= 0x0B else off == 0 || 2 <= off <= 4 || off == 0x0A || off == 0x0B
  }

  predicate SharedOffset(d: Device, off: nat) {
    CoreRegister(d.core, off) || (d.commonRam.Some? && d.commonRam.value.lo <= off <= d.commonRam.value.hi)
  }

  /** The byte that a 7-bit operand reaches with `bank` selected. */
  function CellAt(d: Device, bank: nat, off: nat): Cell {
    if SharedOffset(d, off) then Shared(off) else Banked(bank, off)
  }

  /** The byte at a physical address: its bank is the 128-byte page. */
  function Named(d: Device, a: nat): Cell {
    CellAt(d, a / 128, a % 128)
  }

  /** The offset at which every bank keeps a byte of its own for the interrupt prologue: the one
      operand that is meant to reach whichever bank is selected. */
  predicate IsShadow(d: Device, a: nat) {
    d.isrWShadow.Some? && a % 128 == d.isrWShadow.value % 128
  }

  /** What the device tables say of a banked part: region `i` is in bank `i`, behind the core
      registers, and holds ordinary bytes; common RAM is named by its address in bank 0. */
  ghost predicate MemoryMap(d: Device) {
    && |d.banks| > 0 && (d.core.Pic14? || d.core.Pic14e?) && d.fixedRetval.None?
    && d.banks[0].lo > 0x0B && Paged(d)
    && (d.commonRam.Some? ==> d.commonRam.value.hi < 128 && d.isrWShadow.None?)
    && (d.isrWShadow.Some? ==> !SharedOffset(d, d.isrWShadow.value % 128))
    && forall i, a :: 0 <= i < |d.banks| && d.banks[i].lo <= a <= d.banks[i].hi ==>
         !SharedOffset(d, a % 128) && !IsShadow(d, a)
  }

  // ---- What the bank of an address says ----------------------------------------------

  /** The address stands for a shared byte through another bank, which no stage may emit. */
  predicate IsAlias(d: Device, a: nat)
    requires |d.banks| > 0
  {
    && a >= d.banks[0].lo && a >= 128 && d.HoldingIndex(a).None?
    && d.commonRam.Some? && d.commonRam.value.lo <= a % 128 <= d.commonRam.value.hi
  }

  /** An operand needs no select exactly when its byte answers in every bank, or is the shadow;
      else it needs the bank of its page. */
  lemma BankOfIs(d: Device, a: nat)
    requires MemoryMap(d)
    ensures d.BankOf(a) == AnyBank <==> IsShadow(d, a) || (a < 128 && SharedOffset(d, a))
    ensures d.BankOf(a) == Illegal <==> IsAlias(d, a)
    ensures d.BankOf(a).Bank? ==> d.BankOf(a).n == a / 128
  {
    var h := d.HoldingIndex(a);
    if h.Some? {
      assert d.banks[h.value].lo <= a <= d.banks[h.value].hi;
      assert a / 128 == h.value;
      if a < 128 { assert a % 128 == a; }
    } else if a < 128 {
      assert a % 128 == a && a / 128 == 0;
      hide Paged;
      SmallAddress(d, a);
    } else {
      assert a > 0x0B && d.banks[0].hi < 128;
    }
  }

  lemma SmallAddress(d: Device, a: nat)
    requires MemoryMap(d) && a < 128 && d.HoldingIndex(a).None?
    ensures d.BankOf(a) == if SharedOffset(d, a) || IsShadow(d, a) then AnyBank else Bank(0)
  {
    assert a % 128 == a && a / 128 == 0;
    if a < d.GprStart() {
      assert d.core.Pic14e? ==> (a in MIRRORED_PIC14E <==> a <= 0x0B);
      assert d.core.Pic14? ==> (a in MIRRORED_PIC14 <==> CoreRegister(Pic14, a));
    }
  }

  // ---- The byte actually reached -----------------------------------------------------

  /** Every access of every run reaches the byte its source line named, with or without a bank of
      its own; the shadow's operand reaches the shadow byte of the selected bank. */
  lemma AccessReachesCell(t: Text, labels: Labels, tracks: seq<Track>, start: seq<nat>, out: seq<Line>,
                          trace: seq<Cpu>, k: nat, i: nat, a: nat)
    requires MemoryMap(t.d) && |start| == |t.lines| + 1 == |tracks| && Passed(t, labels, tracks, start, out)
    requires Run(t.d, out, trace) && Initial(t, start, trace[0]) && k < |trace| && RawSelectsOk(t, tracks)
    requires i < |t.lines| && trace[k].pc + 1 == start[i + 1] && OperandOf(t.lines[i]) == Some(a)
    ensures trace[k].pc < |out| && OperandOf(out[trace[k].pc]).Some?
    ensures var r := OperandOf(out[trace[k].pc]).value;
            if IsShadow(t.d, a) then
              r == a && (a < 128 ==> CellAt(t.d, trace[k].bank, r) == Banked(trace[k].bank, a))
            else r < 128 && CellAt(t.d, trace[k].bank, r) == Named(t.d, a)
  {
    hide Passed, Run, Initial;
    AccessKeepsAddress(t, labels, tracks, start, out, trace, k, i, a);
    PassedIs(t, labels, tracks, start, out, i);
    BankOfIs(t.d, a);
    var r := OperandOf(out[trace[k].pc]).value;
    if OperandBank(t.d, t.lines[i]).Some? {
      assert r == a % 128 && trace[k].bank == a / 128;
    } else {
      assert t.d.BankOf(a) == AnyBank;
    }
  }

  // ---- Programs that need no select --------------------------------------------------

  /** Neither an inline block nor a bank write of the core, and every address is in bank 0. */
  predicate PlainLine(d: Device, l: Line) {
    && !l.InlineAsm? && (if d.core.Pic14e? then !l.MovLb? else !l.RpBit? && !l.MovStatus?)
    && (OperandOf(l).Some? ==> OperandOf(l).value < 128)
  }

  lemma PlainKeepsBank0(t: Text, i: nat)
    requires MemoryMap(t.d) && i < |t.lines| && PlainLine(t.d, t.lines[i])
    ensures LineKeepsBank0(t.d, t.lines[i]) && Rewritten(t.d, t.lines[i]) == t.lines[i]
  {
    if OperandOf(t.lines[i]).Some? { BankOfIs(t.d, OperandOf(t.lines[i]).value); }
  }

  lemma PlainIsBank0(t: Text)
    requires MemoryMap(t.d) && forall l <- t.lines :: PlainLine(t.d, l)
    ensures |t.d.banks| > 0 && Bank0Only(t)
  {
    assert |t.d.banks| > 0;
    hide MemoryMap, LineKeepsBank0, PlainLine;
    forall i: nat | i < |t.lines| ensures LineKeepsBank0(t.d, t.lines[i]) { PlainKeepsBank0(t, i); }
  }

  /** Such a program passes through unchanged. */
  lemma PlainTextUnchanged(t: Text, labels: Labels, tracks: seq<Track>, start: seq<nat>, out: seq<Line>)
    requires MemoryMap(t.d) && |start| == |t.lines| + 1 == |tracks| && Passed(t, labels, tracks, start, out)
    requires forall l <- t.lines :: PlainLine(t.d, l)
    ensures out == t.lines
  {
    PlainIsBank0(t);
    hide Passed, MemoryMap, Bank0Only;
    LastStart(t, labels, tracks, start, out);
    for i := 0 to |t.lines|
      invariant start[i] == i <= |out| && out[..i] == t.lines[..i]
    {
      PlainImage(t, labels, tracks, start, out, i);
      assert out[..i + 1] == out[..i] + [out[i]];
    }
    assert out[..|out|] == out && t.lines[..|t.lines|] == t.lines;
  }

  lemma PlainImage(t: Text, labels: Labels, tracks: seq<Track>, start: seq<nat>, out: seq<Line>, i: nat)
    requires MemoryMap(t.d) && |start| == |t.lines| + 1 == |tracks| && Passed(t, labels, tracks, start, out)
    requires |t.d.banks| > 0 && Bank0Only(t) && i < |t.lines| && PlainLine(t.d, t.lines[i]) && start[i] == i
    ensures start[i + 1] == i + 1 <= |out| && out[i] == t.lines[i]
  {
    hide Passed, MemoryMap, LineKeepsBank0, Rewritten, TrackStep;
    PlainKeepsBank0(t, i);
    LineAtIs(t, labels, tracks, start, out, i);
    TracksStayZero(t, labels, tracks, start, out, i);
    LineStaysZero(t, i);
    var img := Image(start, out, i);
    if OperandBank(t.d, t.lines[i]).Some? { assert img[..|img| - 1] == []; }
    assert |img| == 1 && img[0] == out[i];
  }
}
