/** Hand-written RP-bit writes, which the pass tracks as if they cleared the other bit: a text it
    gets wrong, and exactly when it gets straight-line code right. */
module RawSelects {
  import opened Wrappers
  import opened Devices
  import opened BankText
  import opened BankAnalysis
  import opened BankScan
  import opened BankMachine
  import opened BankSoundness

  // ---- A text the pass misreads ------------------------------------------------------

  /** `BSF STATUS,6`, `BSF STATUS,5`, then an access in bank 1. */
  function RawSelects(): Text {
    Text(Device(Pic14, [Region(0x20, 0x7F), Region(0xA0, 0xEF)], None, None, None, None),
         [RpBit(2, true), RpBit(1, true), File(0xA0)])
  }

  /** Whatever the analysis finds, the pass puts no select in front of the access, and the run
      from reset executes it in bank 3. */
  lemma RawSelectsFail(labels: Labels, tracks: seq<Track>, start: seq<nat>, out: seq<Line>)
    requires LabelsSound(RawSelects(), labels) && Scanned(RawSelects(), labels, tracks, start, out) && |start| == 4
    ensures Suitable(RawSelects()) && OperandBank(RawSelects().d, File(0xA0)) == Some(1)
    ensures out == [RpBit(2, true), RpBit(1, true), File(0x20)]
    ensures var trace := [Cpu(0, [], 0), Cpu(1, [], 2), Cpu(2, [], 3)];
      Run(RawSelects().d, out, trace) && Initial(RawSelects(), start, trace[0])
        && !BankRightAt(RawSelects(), start, trace[2], 2)
  {
    var t := RawSelects();
    hide LabelsSound;
    assert t.d.HoldingIndex(0xA0, 0) == t.d.HoldingIndex(0xA0, 1) == Some(1);
    assert OperandBank(t.d, File(0xA0)) == Some(1);
    assert TextBank(t, 1) == Some(2) && TextBank(t, 2) == Some(1);
    TextBankIs(t, labels, tracks, start, out, 2);
    NoSelect(t, labels, tracks, start, out, 0);
    NoSelect(t, labels, tracks, start, out, 1);
    NoSelect(t, labels, tracks, start, out, 2);
  }

  // ---- Straight-line code ------------------------------------------------------------

  predicate Plainly(l: Line) {
    l.Blank? || l.Directive? || l.Plain? || l.File? || l.RpBit?
  }

  /** Operands and RP-bit writes, run from reset. */
  ghost predicate Straight(t: Text) {
    Legal(t) && t.d.core.Pic14? && forall i: nat :: i < |t.lines| ==> Plainly(t.lines[i])
  }

  /** The bank the machine is in before line `i`, when every operand so far was in its own. */
  function RealBank(t: Text, i: nat): nat
    requires |t.d.banks| > 0 && i <= |t.lines|
  {
    if i == 0 then 0
    else
      match t.lines[i - 1]
      case RpBit(mask, on) => SetBit(RealBank(t, i - 1), mask, on)
      case l => if OperandBank(t.d, l).Some? then OperandBank(t.d, l).value else RealBank(t, i - 1)
  }

  /** From tracked bank `cur`, only the bits that look wrong are written: real bank `b` becomes
      `k` when the others are right already. */
  predicate OthersRight(cur: nat, b: nat, k: nat) {
    && (Bit(cur, 1) == Bit(k, 1) ==> Bit(b, 1) == Bit(k, 1))
    && (Bit(cur, 2) == Bit(k, 2) ==> Bit(b, 2) == Bit(k, 2))
  }

  /** Each RP bit that the writes in front of the access seem to leave right is right. */
  predicate ReadRight(t: Text, i: nat)
    requires |t.d.banks| > 0 && i < |t.lines|
  {
    OperandBank(t.d, t.lines[i]).Some? && TextBank(t, i).Some? ==>
      OthersRight(TextBank(t, i).value, RealBank(t, i), OperandBank(t.d, t.lines[i]).value)
  }

  /** The bank after the first `q` lines of the output, run from reset. */
  function OutBank(d: Device, out: seq<Line>, q: nat): nat
    requires q <= |out|
  {
    if q == 0 then 0 else Apply(d, out[q - 1], OutBank(d, out, q - 1))
  }

  lemma {:induction false} OutBankRuns(d: Device, out: seq<Line>, a: nat, b: nat)
    requires a <= b <= |out|
    ensures RunSelects(d, out[a..b], OutBank(d, out, a)) == OutBank(d, out, b)
    decreases b - a
  {
    if a < b {
      assert out[a..b][0] == out[a] && out[a..b][1..] == out[a + 1..b];
      OutBankRuns(d, out, a + 1, b);
    }
  }

  /** The selects reach bank `k` exactly when the bits they leave alone are right. */
  lemma SelectsReach(d: Device, cur: nat, b: nat, k: nat)
    requires d.core.Pic14? && cur < 4 && b < 4 && k < 4
    ensures RunSelects(d, SelectLines(d, Track(true, cur), k), b) == k <==> OthersRight(cur, b, k)
  {
    var one, two := BitSelect(cur, k, 1, false), BitSelect(cur, k, 2, false);
    var sel := one + two;
    assert SelectLines(d, Track(true, cur), k) == sel;
    if |sel| == 2 {
      assert sel[1..] == [sel[1]] && sel[1..][1..] == [];
      assert sel[0] == RpBit(1, Bit(k, 1)) && sel[1] == RpBit(2, Bit(k, 2));
      assert RunSelects(d, sel[1..], SetBit(b, 1, Bit(k, 1))) == SetBit(SetBit(b, 1, Bit(k, 1)), 2, Bit(k, 2));
      assert RunSelects(d, sel, b) == SetBit(SetBit(b, 1, Bit(k, 1)), 2, Bit(k, 2));
    } else if |sel| == 1 {
      assert sel[1..] == [];
      assert RunSelects(d, sel, b) == Apply(d, sel[0], b);
    }
    assert b == 0 || b == 1 || b == 2 || b == 3;
    assert k == 0 || k == 1 || k == 2 || k == 3;
  }

  lemma {:induction false} TextBankKnown(t: Text, i: nat)
    requires Straight(t) && i <= |t.lines|
    ensures TextBank(t, i).Some? && RealBank(t, i) < 4
  {
    if i > 0 {
      TextBankKnown(t, i - 1);
      assert LineLegal(t.d, t.lines[i - 1]) && Plainly(t.lines[i - 1]);
    }
  }

  /** What a line became: its selects, then itself; `k` is its operand's bank. */
  lemma ImageIs(t: Text, labels: Labels, tracks: seq<Track>, start: seq<nat>, out: seq<Line>, i: nat)
    requires Straight(t) && LabelsSound(t, labels) && Scanned(t, labels, tracks, start, out)
    requires |start| == |t.lines| + 1 == |tracks| && i < |t.lines|
    ensures start[i] < start[i + 1] <= |out| && out[start[i + 1] - 1] == Rewritten(t.d, t.lines[i])
    ensures TextBank(t, i).Some? && tracks[i] == Track(true, TextBank(t, i).value) && TextBank(t, i).value < 4
    ensures out[start[i]..start[i + 1] - 1] == match OperandBank(t.d, t.lines[i])
            case Some(k) => SelectLines(t.d, tracks[i], k)
            case None => []
  {
    TextBankKnown(t, i);
    TextBankIs(t, labels, tracks, start, out, i);
    hide LabelsSound, TrackStep, Rewritten, OperandBank, SelectLines, Straight, TextBank;
    assert LineAt(t, labels, tracks, start, out, i);
    var img := out[start[i]..start[i + 1]];
    assert ImageOk(t.d, t.lines[i], tracks[i], img);
    assert img[..|img| - 1] == out[start[i]..start[i + 1] - 1];
    StraightIs(t, i);
  }

  lemma StraightIs(t: Text, i: nat)
    requires Straight(t) && i < |t.lines|
    ensures |t.d.banks| > 0 && t.d.core.Pic14? && Plainly(t.lines[i]) && LineLegal(t.d, t.lines[i])
  {
  }

  /** Where the output stands in front of an access, and in front of the next line. */
  lemma LineRuns(t: Text, labels: Labels, tracks: seq<Track>, start: seq<nat>, out: seq<Line>, i: nat)
    requires Straight(t) && LabelsSound(t, labels) && Scanned(t, labels, tracks, start, out)
    requires |start| == |t.lines| + 1 == |tracks| && i < |t.lines| && start[i] < start[i + 1] <= |out|
    requires OutBank(t.d, out, start[i]) == RealBank(t, i)
    ensures OperandBank(t.d, t.lines[i]).Some? ==>
      (OutBank(t.d, out, start[i + 1] - 1) == OperandBank(t.d, t.lines[i]).value <==> ReadRight(t, i))
    ensures ReadRight(t, i) ==> OutBank(t.d, out, start[i + 1]) == RealBank(t, i + 1)
  {
    hide LabelsSound, Scanned, Straight, TextBank, OutBank, SelectLines, OthersRight;
    ImageIs(t, labels, tracks, start, out, i);
    StraightIs(t, i);
    TextBankKnown(t, i);
    OutBankRuns(t.d, out, start[i], start[i + 1] - 1);
    LastLine(t.d, out, start[i + 1]);
    if OperandBank(t.d, t.lines[i]).Some? {
      SelectsReach(t.d, TextBank(t, i).value, RealBank(t, i), OperandBank(t.d, t.lines[i]).value);
    }
  }

  lemma LastLine(d: Device, out: seq<Line>, q: nat)
    requires 0 < q <= |out|
    ensures OutBank(d, out, q) == Apply(d, out[q - 1], OutBank(d, out, q - 1))
  {
  }

  lemma {:induction false} RunsUpTo(t: Text, labels: Labels, tracks: seq<Track>, start: seq<nat>, out: seq<Line>,
                                    i: nat)
    requires Straight(t) && LabelsSound(t, labels) && Scanned(t, labels, tracks, start, out)
    requires |start| == |t.lines| + 1 == |tracks| && i <= |t.lines|
    requires forall j: nat :: j < i ==> ReadRight(t, j)
    ensures start[i] <= |out| && OutBank(t.d, out, start[i]) == RealBank(t, i)
  {
    hide LabelsSound, LineAt, Straight, ReadRight;
    if i > 0 {
      RunsUpTo(t, labels, tracks, start, out, i - 1);
      ImageIs(t, labels, tracks, start, out, i - 1);
      LineRuns(t, labels, tracks, start, out, i - 1);
    }
  }

  // ---- Runs of straight-line output --------------------------------------------------

  ghost predicate AllPlainly(out: seq<Line>, n: nat)
    requires n <= |out|
  {
    forall q: nat :: q < n ==> Plainly(out[q])
  }

  lemma {:induction false} OutPlainly(t: Text, labels: Labels, tracks: seq<Track>, start: seq<nat>, out: seq<Line>,
                                      i: nat)
    requires Straight(t) && LabelsSound(t, labels) && Scanned(t, labels, tracks, start, out)
    requires |start| == |t.lines| + 1 == |tracks| && i <= |t.lines|
    ensures start[i] <= |out| && AllPlainly(out, start[i])
  {
    hide LabelsSound, LineAt, Straight;
    if i > 0 {
      OutPlainly(t, labels, tracks, start, out, i - 1);
      ImageIs(t, labels, tracks, start, out, i - 1);
      StraightIs(t, i - 1);
      var sel := out[start[i - 1]..start[i] - 1];
      forall q: nat | start[i - 1] <= q < start[i] - 1 ensures Plainly(out[q]) {
        assert out[q] == sel[q - start[i - 1]];
      }
    }
  }

  lemma {:induction false} RunIs(d: Device, out: seq<Line>, trace: seq<Cpu>, k: nat)
    requires d.core.Pic14? && AllPlainly(out, |out|) && Run(d, out, trace) && trace[0] == Cpu(0, [], 0) && k < |trace|
    ensures k <= |out| && trace[k] == Cpu(k, [], OutBank(d, out, k))
  {
    if k > 0 {
      RunIs(d, out, trace, k - 1);
      assert StepAt(d, out, trace, k - 1);
      assert Plainly(out[k - 1]);
    }
  }

  lemma {:induction false} RunExists(d: Device, out: seq<Line>, q: nat) returns (trace: seq<Cpu>)
    requires d.core.Pic14? && AllPlainly(out, |out|) && q <= |out|
    ensures |trace| == q + 1 && Run(d, out, trace) && trace[0] == Cpu(0, [], 0)
  {
    if q == 0 {
      trace := [Cpu(0, [], 0)];
    } else {
      var before := RunExists(d, out, q - 1);
      RunIs(d, out, before, q - 1);
      trace := before + [Cpu(q, [], OutBank(d, out, q))];
      assert Plainly(out[q - 1]);
      forall k: nat | k + 1 < |trace| ensures StepAt(d, out, trace, k) {
        if k + 1 < q { assert StepAt(d, out, before, k); }
      }
    }
  }

  /** Every run from reset executes every banked operand in its own bank. */
  ghost predicate AllRight(t: Text, start: seq<nat>, out: seq<Line>)
    requires |t.d.banks| > 0 && |start| == |t.lines| + 1
  {
    forall trace: seq<Cpu>, k: nat ::
      Run(t.d, out, trace) && trace[0] == Cpu(0, [], 0) && k < |trace| ==> BankRight(t, start, trace[k])
  }

  /** Straight-line code is rewritten rightly exactly when, in front of every access, each RP bit
      the tracked bank has right is right in the real one. */
  lemma StraightExact(t: Text, labels: Labels, tracks: seq<Track>, start: seq<nat>, out: seq<Line>)
    requires Straight(t) && LabelsSound(t, labels) && Scanned(t, labels, tracks, start, out)
    requires |start| == |t.lines| + 1 == |tracks|
    ensures AllRight(t, start, out) <==> forall i: nat :: i < |t.lines| ==> ReadRight(t, i)
  {
    OutPlainly(t, labels, tracks, start, out, |t.lines|);
    assert start[|t.lines|] == |out| && t.d.core.Pic14?;
    hide Straight, LabelsSound, Scanned, ReadRight, AllPlainly, Run;
    if forall i: nat :: i < |t.lines| ==> ReadRight(t, i) {
      forall trace: seq<Cpu>, k: nat | Run(t.d, out, trace) && trace[0] == Cpu(0, [], 0) && k < |trace|
        ensures BankRight(t, start, trace[k])
      {
        RunIs(t.d, out, trace, k);
        forall i: nat | i < |t.lines| ensures BankRightAt(t, start, trace[k], i) {
          RunsUpTo(t, labels, tracks, start, out, i);
          ImageIs(t, labels, tracks, start, out, i);
          LineRuns(t, labels, tracks, start, out, i);
        }
      }
    } else {
      var i := FirstMisread(t, |t.lines|);
      RunsUpTo(t, labels, tracks, start, out, i);
      ImageIs(t, labels, tracks, start, out, i);
      LineRuns(t, labels, tracks, start, out, i);
      MisreadHasOperand(t, i);
      var q := start[i + 1] - 1;
      var trace := RunExists(t.d, out, q);
      RunIs(t.d, out, trace, q);
      assert !BankRightAt(t, start, trace[q], i);
    }
  }

  lemma MisreadHasOperand(t: Text, i: nat)
    requires |t.d.banks| > 0 && i < |t.lines| && !ReadRight(t, i)
    ensures OperandBank(t.d, t.lines[i]).Some?
  {
  }

  lemma {:induction false} FirstMisread(t: Text, n: nat) returns (i: nat)
    requires |t.d.banks| > 0 && n <= |t.lines| && exists j: nat :: j < n && !ReadRight(t, j)
    ensures i < n && !ReadRight(t, i) && forall j: nat :: j < i ==> ReadRight(t, j)
  {
    if exists j: nat :: j < n - 1 && !ReadRight(t, j) {
      i := FirstMisread(t, n - 1);
    } else {
      i := n - 1;
    }
  }
}
