/** The machine the rewritten text runs on, with a program counter, a call stack and a bank
    register, and the programs the soundness claim is for. */
module BankMachine {
  import opened Wrappers
  import opened Devices
  import opened BankText
  import opened BankAnalysis
  import opened BankScan

  // ---- The machine -------------------------------------------------------------------

  datatype Cpu = Cpu(pc: nat, stack: seq<nat>, bank: nat)

  ghost predicate BankStep(d: Device, l: Line, b: nat, b': nat) {
    if l.InlineAsm? || (l.MovStatus? && !d.core.Pic14e?) then b' < BankLimit(d)
    else b' == Apply(d, l, b)
  }

  /** One instruction. A skip lands on the next instruction or the one behind it; labels take
      no room. A computed jump goes anywhere. */
  ghost predicate Step(d: Device, out: seq<Line>, s: Cpu, s': Cpu) {
    s.pc < |out| &&
    match out[s.pc]
    case Return => s.stack != [] && s' == Cpu(s.stack[|s.stack| - 1], s.stack[..|s.stack| - 1], s.bank)
    case Goto(x) => LabelPos(out, x).Some? && s' == Cpu(LabelPos(out, x).value, s.stack, s.bank)
    case Call(x) => LabelPos(out, x).Some? && s' == Cpu(LabelPos(out, x).value, s.stack + [s.pc + 1], s.bank)
    case Skip(_) =>
      var j := AfterLabels(out, s.pc + 1, |out|);
      s' == Cpu(j, s.stack, s.bank) || s' == Cpu(j + 1, s.stack, s.bank)
    case MovPcl => s'.stack == s.stack && s'.bank == s.bank
    case l => s'.pc == s.pc + 1 && s'.stack == s.stack && BankStep(d, l, s.bank, s'.bank)
  }

  ghost predicate Run(d: Device, out: seq<Line>, trace: seq<Cpu>) {
    trace != [] && forall k: nat :: k + 1 < |trace| ==> StepAt(d, out, trace, k)
  }

  ghost predicate StepAt(d: Device, out: seq<Line>, trace: seq<Cpu>, k: nat)
    requires k + 1 < |trace|
  {
    Step(d, out, trace[k], trace[k + 1])
  }

  /** If `pc` is at the rewritten line `i` and that line has a banked operand, its bank is selected. */
  ghost predicate BankRightAt(t: Text, start: seq<nat>, s: Cpu, i: nat)
    requires |t.d.banks| > 0 && |start| == |t.lines| + 1 && i < |t.lines|
  {
    s.pc + 1 == start[i + 1] && OperandBank(t.d, t.lines[i]).Some?
    ==> s.bank == OperandBank(t.d, t.lines[i]).value
  }

  ghost predicate BankRight(t: Text, start: seq<nat>, s: Cpu)
    requires |t.d.banks| > 0 && |start| == |t.lines| + 1
  {
    forall i: nat :: i < |t.lines| ==> BankRightAt(t, start, s, i)
  }

  // ---- Programs the claim is for -----------------------------------------------------

  /** `p` is in the span of `i`, or opens a region, or lies ahead of every region. */
  ghost predicate Stays(ls: seq<Line>, i: nat, p: nat)
    requires i < |ls| && p < |ls|
  {
    || IsOpener(ls, p)
    || p < FirstOpener(ls)
    || (FirstOpener(ls) <= i && OpenerOf(ls, i) == OpenerOf(ls, p))
  }

  function SpanEnd(ls: seq<Line>, i: nat): nat
    requires i < |ls|
  {
    if i < FirstOpener(ls) then FirstOpener(ls) else RegionEnd(ls, OpenerOf(ls, i))
  }

  function Successor(ls: seq<Line>, i: nat): nat
    requires i < |ls|
  {
    AfterLabels(ls, i + 1, |ls|)
  }

  /** What a skip guards: an instruction of the same region that is no call and no bank op. */
  ghost predicate GuardOk(ls: seq<Line>, i: nat)
    requires i < |ls|
  {
    var j := Successor(ls, i);
    && j < SpanEnd(ls, i) && j < |ls|
    && (ls[j].Plain? || ls[j].Goto? || ls[j].Return? || ls[j].File? || ls[j].Skip?)
  }

  /** No computed jump, defined targets, no jump into the middle of another region, and plain
      instructions behind skips. */
  ghost predicate LineSuitable(t: Text, i: nat)
    requires i < |t.lines|
  {
    match t.lines[i]
    case Table => false
    case MovPcl => false
    case Call(x) => LabelPos(t.lines, x).Some?
    case Goto(x) => LabelPos(t.lines, x).Some? && Stays(t.lines, i, LabelPos(t.lines, x).value)
    case Skip(_) => GuardOk(t.lines, i)
    case _ => true
  }

  ghost predicate Suitable(t: Text) {
    && Legal(t) && (t.d.core.Pic14? || t.d.core.Pic14e?)
    && forall i: nat :: i < |t.lines| ==> LineSuitable(t, i)
  }

  /** No select was put between a skip and the instruction it guards. */
  ghost predicate SkipsClear(t: Text, start: seq<nat>)
    requires |start| == |t.lines| + 1
  {
    forall i: nat :: i < |t.lines| && t.lines[i].Skip? && Successor(t.lines, i) < |t.lines|
      ==> start[Successor(t.lines, i) + 1] == start[Successor(t.lines, i)] + 1
  }

  /** A hand-written RP-bit write is tracked as if it cleared the other RP bit; it must be
      known clear. */
  predicate RawOk(d: Device, l: Line, tr: Track) {
    l.RpBit? && !d.core.Pic14e? ==> tr.known && l.mask <= 2 && !Bit(tr.cur, 3 - l.mask)
  }

  ghost predicate RawSelectsOk(t: Text, tracks: seq<Track>)
    requires |tracks| == |t.lines| + 1
  {
    forall i: nat :: i < |t.lines| ==> RawOk(t.d, t.lines[i], tracks[i])
  }

  /** The tracked effect of an RP-bit write is the real one exactly when the other bit is clear. */
  lemma RawSelectExact(d: Device, mask: nat, on: bool, b: nat)
    requires !d.core.Pic14e? && (mask == 1 || mask == 2) && b < 4
    ensures Effect(d, RpBit(mask, on)) == Some(Some(Apply(d, RpBit(mask, on), b))) <==> !Bit(b, 3 - mask)
  {
    assert b == 0 || b == 1 || b == 2 || b == 3;
  }

  /** The bank tracked in front of line `i` as far as the text alone tells: the last select or
      banked operand ahead of it, with no label, call or assembly block in between. */
  function TextBank(t: Text, i: nat): Option<nat>
    requires |t.d.banks| > 0 && i <= |t.lines|
  {
    if i == 0 then Some(0)
    else
      var l := t.lines[i - 1];
      if l.Label? || l.Call? || l.InlineAsm? then None
      else
        match Effect(t.d, l)
        case Some(k) => k
        case None => if OperandBank(t.d, l).Some? then OperandBank(t.d, l) else TextBank(t, i - 1)
  }

  /** A hand-written RP-bit write has the other bit clear in the bank the text shows. */
  predicate RawTextOk(t: Text, i: nat)
    requires |t.d.banks| > 0 && i < |t.lines|
  {
    t.lines[i].RpBit? && !t.d.core.Pic14e? ==>
      TextBank(t, i).Some? && t.lines[i].mask <= 2 && !Bit(TextBank(t, i).value, 3 - t.lines[i].mask)
  }

  /** The line a skip guards needs no select: no banked operand, or one in the bank the text shows. */
  predicate SkipTextOk(t: Text, i: nat)
    requires |t.d.banks| > 0 && i < |t.lines|
  {
    var j := Successor(t.lines, i);
    t.lines[i].Skip? && j < |t.lines| && OperandBank(t.d, t.lines[j]).Some? ==>
      TextBank(t, j) == OperandBank(t.d, t.lines[j])
  }

  /** A text whose rewriting is sound, whatever the analysis finds. */
  ghost predicate TextOk(t: Text) {
    && Suitable(t)
    && forall i: nat :: i < |t.lines| ==> RawTextOk(t, i) && SkipTextOk(t, i)
  }

  lemma {:induction false} TextBankIs(t: Text, labels: Labels, tracks: seq<Track>, start: seq<nat>, out: seq<Line>,
                                      i: nat)
    requires |t.d.banks| > 0 && LabelsSound(t, labels) && Scanned(t, labels, tracks, start, out)
    requires |start| == |t.lines| + 1 && i <= |t.lines|
    ensures TextBank(t, i).Some? ==> tracks[i] == Track(true, TextBank(t, i).value)
  {
    hide LabelsSound, ImageOk;
    if i > 0 {
      TextBankIs(t, labels, tracks, start, out, i - 1);
      assert LineAt(t, labels, tracks, start, out, i - 1);
    }
  }

  /** What the text shows is enough for every result of the pass. */
  lemma TextOkPasses(t: Text, labels: Labels, tracks: seq<Track>, start: seq<nat>, out: seq<Line>)
    requires TextOk(t) && |t.d.banks| > 0 && LabelsSound(t, labels) && Scanned(t, labels, tracks, start, out)
    requires |start| == |t.lines| + 1 == |tracks|
    ensures Passed(t, labels, tracks, start, out) && RawSelectsOk(t, tracks)
  {
    hide LabelsSound, Suitable, TextBank, TrackStep, Rewritten, OperandBank, Scanned;
    forall i: nat | i < |t.lines| ensures RawOk(t.d, t.lines[i], tracks[i]) {
      assert RawTextOk(t, i);
      TextBankIs(t, labels, tracks, start, out, i);
    }
    forall i: nat | i < |t.lines| && t.lines[i].Skip? && Successor(t.lines, i) < |t.lines|
      ensures start[Successor(t.lines, i) + 1] == start[Successor(t.lines, i)] + 1
    {
      assert SkipTextOk(t, i);
      var j := Successor(t.lines, i);
      TextBankIs(t, labels, tracks, start, out, j);
      NoSelect(t, labels, tracks, start, out, j);
    }
  }

  lemma NoSelect(t: Text, labels: Labels, tracks: seq<Track>, start: seq<nat>, out: seq<Line>, j: nat)
    requires |t.d.banks| > 0 && LabelsSound(t, labels) && Scanned(t, labels, tracks, start, out)
    requires |start| == |t.lines| + 1 && j < |t.lines|
    requires OperandBank(t.d, t.lines[j]).Some? ==> tracks[j] == Track(true, OperandBank(t.d, t.lines[j]).value)
    ensures start[j + 1] == start[j] + 1 && start[j + 1] <= |out| && out[start[j]] == Rewritten(t.d, t.lines[j])
  {
    hide LabelsSound, TrackStep, Rewritten, OperandBank;
    assert LineAt(t, labels, tracks, start, out, j);
    var img := out[start[j]..start[j + 1]];
    assert ImageOk(t.d, t.lines[j], tracks[j], img);
    assert img[..|img| - 1] == [] ==> |img| == 1;
    assert img[|img| - 1] == out[start[j + 1] - 1];
  }

  /** A finished pass over a suitable text. */
  ghost predicate Passed(t: Text, labels: Labels, tracks: seq<Track>, start: seq<nat>, out: seq<Line>) {
    && Suitable(t) && LabelsSound(t, labels) && |start| == |t.lines| + 1
    && Scanned(t, labels, tracks, start, out) && SkipsClear(t, start)
  }

  lemma PassedIs(t: Text, labels: Labels, tracks: seq<Track>, start: seq<nat>, out: seq<Line>, i: nat)
    requires Passed(t, labels, tracks, start, out) && i < |t.lines|
    ensures |t.d.banks| > 0 && Suitable(t) && Legal(t) && LabelsSound(t, labels) && SkipsClear(t, start)
    ensures LineSuitable(t, i) && LineLegal(t.d, t.lines[i])
    ensures t.d.core.Pic14? || t.d.core.Pic14e?
  {
    hide LineSuitable, LineLegal, LabelsSound, SkipsClear, Scanned;
  }

  // ---- Where lines went --------------------------------------------------------------

  lemma LastStart(t: Text, labels: Labels, tracks: seq<Track>, start: seq<nat>, out: seq<Line>)
    requires Passed(t, labels, tracks, start, out)
    ensures |start| == |t.lines| + 1 && start[|t.lines|] == |out| && start[0] == 0
    ensures |tracks| == |start| && tracks[0] == Track(true, 0)
  {
    hide LineAt, Suitable, LabelsSound, SkipsClear;
  }

  ghost function Image(start: seq<nat>, out: seq<Line>, i: nat): seq<Line>
    requires i + 1 < |start| && start[i] <= start[i + 1] <= |out|
  {
    out[start[i]..start[i + 1]]
  }

  lemma LineAtIs(t: Text, labels: Labels, tracks: seq<Track>, start: seq<nat>, out: seq<Line>, i: nat)
    requires Passed(t, labels, tracks, start, out) && i < |t.lines|
    ensures |start| == |t.lines| + 1 == |tracks| && start[i] < start[i + 1] <= |out| == start[|t.lines|]
    ensures TrackStep(t, labels, t.lines[i], tracks[i], tracks[i + 1])
    ensures ImageOk(t.d, t.lines[i], tracks[i], Image(start, out, i))
    ensures out[start[i + 1] - 1] == Rewritten(t.d, t.lines[i])
    ensures forall q :: start[i] <= q < start[i + 1] - 1 ==> IsSelect(out[q])
    ensures OperandBank(t.d, t.lines[i]).None? ==> start[i + 1] == start[i] + 1
    ensures tracks[i].cur < BankLimit(t.d)
  {
    assert |t.d.banks| > 0;
    hide LabelsSound, Suitable, SkipsClear, TrackStep, Rewritten;
    assert LineAt(t, labels, tracks, start, out, i);
    var img := Image(start, out, i);
    assert |img| == start[i + 1] - start[i] && img[|img| - 1] == out[start[i + 1] - 1];
    forall q | start[i] <= q < start[i + 1] - 1 ensures IsSelect(out[q]) {
      assert out[q] == img[..|img| - 1][q - start[i]];
    }
  }

  lemma {:induction false} Locate(t: Text, labels: Labels, tracks: seq<Track>, start: seq<nat>, out: seq<Line>,
                                  q: nat, n: nat) returns (i: nat)
    requires Passed(t, labels, tracks, start, out) && n <= |t.lines| && q < start[n]
    ensures i < n && start[i] <= q < start[i + 1]
  {
    hide LabelsSound, Suitable, SkipsClear, LineAt;
    if n == 0 {
      assert false;
    } else if start[n - 1] <= q {
      i := n - 1;
    } else {
      i := Locate(t, labels, tracks, start, out, q, n - 1);
    }
  }

  /** A label sits alone at the start of its line's image, and only there. */
  lemma OutLabel(t: Text, labels: Labels, tracks: seq<Track>, start: seq<nat>, out: seq<Line>, x: Name)
    requires Passed(t, labels, tracks, start, out) && LabelPos(t.lines, x).Some?
    ensures var p := LabelPos(t.lines, x).value; LabelPos(out, x) == Some(start[p])
  {
    hide Passed, ImageOk, TrackStep, UniqueLabels, LineLegal, SkipsClear, LabelsSound, Suitable;
    var p := LabelPos(t.lines, x).value;
    LineAtIs(t, labels, tracks, start, out, p);
    PassedIs(t, labels, tracks, start, out, p);
    assert out[start[p]] == Label(x);
    var r := LabelPos(out, x);
    assert r.Some?;
    var i := Locate(t, labels, tracks, start, out, r.value, |t.lines|);
    LineAtIs(t, labels, tracks, start, out, i);
    assert r.value == start[i + 1] - 1;
    assert t.lines[i] == Label(x);
    LabelPosIs(t.lines, i);
  }

  /** The labels behind a skip stay labels, so its successor is found where it went. */
  lemma {:induction false} OutAfter(t: Text, labels: Labels, tracks: seq<Track>, start: seq<nat>, out: seq<Line>,
                                    m: nat, j: nat)
    requires Passed(t, labels, tracks, start, out) && m <= j < |t.lines| && !t.lines[j].Label?
    requires forall k :: m <= k < j ==> t.lines[k].Label?
    ensures start[m] <= |out| && AfterLabels(out, start[m], |out|) == start[j]
    decreases j - m
  {
    LineAtIs(t, labels, tracks, start, out, m);
    hide Passed, ImageOk, TrackStep;
    if m < j {
      OutAfter(t, labels, tracks, start, out, m + 1, j);
    } else {
      assert start[m] == start[m + 1] - 1 || IsSelect(out[start[m]]);
      assert !out[start[m]].Label?;
    }
  }
}
