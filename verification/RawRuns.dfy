/** Exactly when the pass is right about a run, hand-written RP-bit writes included, through
    labels, calls, returns and skips. */
module RawRuns {
  import opened Wrappers
  import opened Devices
  import opened BankText
  import opened BankAnalysis
  import opened BankScan
  import opened BankMachine
  import opened BankSoundness
  import opened RawSelects

  /** Line `i`, reached with bank `b`: each RP bit that its selects leave alone is right. */
  ghost predicate ArrivesRight(t: Text, tracks: seq<Track>, i: nat, b: nat)
    requires |t.d.banks| > 0 && i < |t.lines| && |tracks| == |t.lines| + 1
  {
    OperandBank(t.d, t.lines[i]).Some? && tracks[i].known ==>
      OthersRight(tracks[i].cur, b, OperandBank(t.d, t.lines[i]).value)
  }

  /** A run from reset or from a region opener. */
  ghost predicate Started(t: Text, start: seq<nat>, out: seq<Line>, trace: seq<Cpu>)
    requires |t.d.banks| > 0 && |start| == |t.lines| + 1
  {
    Run(t.d, out, trace) && Initial(t, start, trace[0])
  }

  // ---- Control enters a line's image at its start ------------------------------------

  ghost predicate IsStart(start: seq<nat>, pc: nat) {
    exists i: nat :: i < |start| && start[i] == pc
  }

  ghost predicate StartsOnly(start: seq<nat>, stack: seq<nat>) {
    forall j :: 0 <= j < |stack| ==> IsStart(start, stack[j])
  }

  /** At step `k` the run is `n` selects into the image of line `i`, entered `n` steps ago. */
  ghost predicate InImage(t: Text, start: seq<nat>, out: seq<Line>, trace: seq<Cpu>, k: nat, i: nat, n: nat)
    requires |start| == |t.lines| + 1 && k < |trace|
  {
    && i < |t.lines| && start[i] + n < start[i + 1] <= |out| && n <= k
    && trace[k].pc == start[i] + n && trace[k - n].pc == start[i]
    && trace[k].bank == RunSelects(t.d, out[start[i]..start[i] + n], trace[k - n].bank)
    && trace[k - n].bank < 4
  }

  ghost predicate Shaped(t: Text, start: seq<nat>, out: seq<Line>, trace: seq<Cpu>, k: nat)
    requires |start| == |t.lines| + 1 && k < |trace|
  {
    && trace[k].bank < 4 && StartsOnly(start, trace[k].stack)
    && (trace[k].pc >= |out| || exists i: nat, n: nat :: InImage(t, start, out, trace, k, i, n))
  }

  lemma {:induction false} RunSelectsSnoc(d: Device, sel: seq<Line>, l: Line, b: nat)
    ensures RunSelects(d, sel + [l], b) == Apply(d, l, RunSelects(d, sel, b))
    decreases |sel|
  {
    if sel == [] {
      assert sel + [l] == [l] && [l][1..] == [];
    } else {
      assert (sel + [l])[0] == sel[0] && (sel + [l])[1..] == sel[1..] + [l];
      RunSelectsSnoc(d, sel[1..], l, Apply(d, sel[0], b));
    }
  }

  lemma AtStart(t: Text, labels: Labels, tracks: seq<Track>, start: seq<nat>, out: seq<Line>, trace: seq<Cpu>, k: nat)
    requires Passed(t, labels, tracks, start, out) && |start| == |t.lines| + 1 && k < |trace|
    requires trace[k].bank < 4 && StartsOnly(start, trace[k].stack)
    requires IsStart(start, trace[k].pc) || trace[k].pc >= |out|
    ensures Shaped(t, start, out, trace, k)
  {
    hide Passed, StartsOnly;
    if trace[k].pc < |out| {
      var i: nat :| i < |start| && start[i] == trace[k].pc;
      LastStart(t, labels, tracks, start, out);
      LineAtIs(t, labels, tracks, start, out, i);
      assert out[start[i]..start[i] + 0] == [];
      assert InImage(t, start, out, trace, k, i, 0);
    }
  }

  /** One select further into the image. */
  lemma SelectStep(t: Text, labels: Labels, tracks: seq<Track>, start: seq<nat>, out: seq<Line>, trace: seq<Cpu>,
                   k: nat, i: nat, n: nat)
    requires Passed(t, labels, tracks, start, out) && t.d.core.Pic14? && |start| == |t.lines| + 1
    requires k + 1 < |trace| && Step(t.d, out, trace[k], trace[k + 1]) && InImage(t, start, out, trace, k, i, n)
    requires start[i] + n + 1 < start[i + 1]
    ensures InImage(t, start, out, trace, k + 1, i, n + 1) && trace[k + 1].stack == trace[k].stack
    ensures trace[k + 1].bank == Apply(t.d, out[start[i] + n], trace[k].bank)
  {
    hide Passed, SetBit, ImageOk, TrackStep, Rewritten;
    LineAtIs(t, labels, tracks, start, out, i);
    var q := start[i] + n;
    assert IsSelect(out[q]);
    assert out[start[i]..q + 1] == out[start[i]..q] + [out[q]];
    RunSelectsSnoc(t.d, out[start[i]..q], out[q], trace[k - n].bank);
  }

  lemma SelectSmall(t: Text, labels: Labels, tracks: seq<Track>, start: seq<nat>, out: seq<Line>, i: nat, q: nat,
                    b: nat)
    requires Passed(t, labels, tracks, start, out) && t.d.core.Pic14? && |start| == |t.lines| + 1
    requires i < |t.lines| && start[i] <= q && q + 1 < start[i + 1] <= |out| && b < 4
    ensures Apply(t.d, out[q], b) < 4
  {
    hide Passed, TrackStep, Rewritten, OperandBank;
    PassedIs(t, labels, tracks, start, out, i);
    LineAtIs(t, labels, tracks, start, out, i);
    assert OperandBank(t.d, t.lines[i]).Some?;
    var img := Image(start, out, i);
    assert img[..|img| - 1][q - start[i]] == out[q];
  }

  /** Behind the last line of an image control is at the start of another, or past the end. */
  lemma LastStep(t: Text, labels: Labels, tracks: seq<Track>, start: seq<nat>, out: seq<Line>, s: Cpu, s': Cpu, i: nat)
    requires Passed(t, labels, tracks, start, out) && t.d.core.Pic14? && |start| == |t.lines| + 1
    requires i < |t.lines| && s.pc + 1 == start[i + 1] <= |out| && Step(t.d, out, s, s')
    requires s.bank < 4 && StartsOnly(start, s.stack)
    ensures s'.bank < 4 && StartsOnly(start, s'.stack) && (IsStart(start, s'.pc) || s'.pc >= |out|)
  {
    hide Passed, ImageOk, TrackStep, OperandBank, Suitable, SkipsClear, LabelsSound, UniqueLabels;
    PassedIs(t, labels, tracks, start, out, i);
    LineAtIs(t, labels, tracks, start, out, i);
    var l := t.lines[i];
    match l
    case Goto(x) => OutLabel(t, labels, tracks, start, out, x);
    case Call(x) => OutLabel(t, labels, tracks, start, out, x);
    case Skip(_) => SkipLands(t, labels, tracks, start, out, s, s', i);
    case RpBit(mask, on) => assert mask == 1 || mask == 2;
    case _ =>
  }

  lemma SkipLands(t: Text, labels: Labels, tracks: seq<Track>, start: seq<nat>, out: seq<Line>, s: Cpu, s': Cpu, i: nat)
    requires Passed(t, labels, tracks, start, out) && |start| == |t.lines| + 1
    requires i < |t.lines| && s.pc + 1 == start[i + 1] <= |out| && Step(t.d, out, s, s') && t.lines[i].Skip?
    ensures s'.bank == s.bank && s'.stack == s.stack && IsStart(start, s'.pc)
  {
    hide Passed, ImageOk, TrackStep, OperandBank, Suitable, LabelsSound, UniqueLabels, Legal, LineLegal;
    PassedIs(t, labels, tracks, start, out, i);
    LineAtIs(t, labels, tracks, start, out, i);
    var j := Successor(t.lines, i);
    assert GuardOk(t.lines, i);
    OutAfter(t, labels, tracks, start, out, i + 1, j);
    assert start[j + 1] == start[j] + 1;
  }

  lemma {:induction false} RunShape(t: Text, labels: Labels, tracks: seq<Track>, start: seq<nat>, out: seq<Line>,
                                    trace: seq<Cpu>, k: nat)
    requires Passed(t, labels, tracks, start, out) && t.d.core.Pic14? && |t.d.banks| > 0
    requires |start| == |t.lines| + 1 && Started(t, start, out, trace) && k < |trace|
    ensures Shaped(t, start, out, trace, k)
  {
    hide Passed, Step, IsOpener, Bank0Only, RunSelects;
    if k == 0 {
      LastStart(t, labels, tracks, start, out);
      FirstAtStart(t, start, trace[0]);
      AtStart(t, labels, tracks, start, out, trace, 0);
    } else {
      RunShape(t, labels, tracks, start, out, trace, k - 1);
      assert StepAt(t.d, out, trace, k - 1);
      StepInside(t.d, out, trace[k - 1], trace[k]);
      var i: nat, n: nat :| InImage(t, start, out, trace, k - 1, i, n);
      if start[i] + n + 1 < start[i + 1] {
        SelectStep(t, labels, tracks, start, out, trace, k - 1, i, n);
        SelectSmall(t, labels, tracks, start, out, i, start[i] + n, trace[k - 1].bank);
      } else {
        LastStep(t, labels, tracks, start, out, trace[k - 1], trace[k], i);
        AtStart(t, labels, tracks, start, out, trace, k);
      }
    }
  }

  lemma FirstAtStart(t: Text, start: seq<nat>, s: Cpu)
    requires |t.d.banks| > 0 && t.d.core.Pic14? && |start| == |t.lines| + 1 && start[0] == 0 && Initial(t, start, s)
    ensures s.stack == [] && s.bank < 4 && IsStart(start, s.pc)
  {
    hide Bank0Only;
    if s.pc != 0 {
      var lo: nat :| IsOpener(t.lines, lo) && s.pc == start[lo];
    }
  }

  lemma StepInside(d: Device, out: seq<Line>, s: Cpu, s': Cpu)
    requires Step(d, out, s, s')
    ensures s.pc < |out|
  {
  }

  // ---- The access behind the selects -------------------------------------------------

  /** What stands in front of the access, and what it does to the bank. */
  lemma SelectsDo(t: Text, labels: Labels, tracks: seq<Track>, start: seq<nat>, out: seq<Line>, i: nat, b: nat)
    requires Passed(t, labels, tracks, start, out) && t.d.core.Pic14? && |t.d.banks| > 0
    requires |start| == |t.lines| + 1 == |tracks| && i < |t.lines| && b < 4 && OperandBank(t.d, t.lines[i]).Some?
    ensures start[i] < start[i + 1] <= |out|
    ensures RunSelects(t.d, out[start[i]..start[i + 1] - 1], b) == OperandBank(t.d, t.lines[i]).value
      <==> ArrivesRight(t, tracks, i, b)
  {
    hide Passed, TrackStep, Rewritten, OperandBank, OthersRight, RunSelects, SelectLines;
    LineAtIs(t, labels, tracks, start, out, i);
    PassedIs(t, labels, tracks, start, out, i);
    var img := Image(start, out, i);
    var k := OperandBank(t.d, t.lines[i]).value;
    assert img[..|img| - 1] == out[start[i]..start[i + 1] - 1];
    OperandSmall(t.d, t.lines[i]);
    if tracks[i].known {
      assert tracks[i] == Track(true, tracks[i].cur);
      SelectsReach(t.d, tracks[i].cur, b, k);
    }
  }

  lemma OperandSmall(d: Device, l: Line)
    requires |d.banks| > 0 && LineLegal(d, l) && OperandBank(d, l).Some? && d.core.Pic14?
    ensures OperandBank(d, l).value < 4
  {
  }

  /** From the start of an image its selects can be run to the end. */
  lemma {:induction false} Onward(t: Text, labels: Labels, tracks: seq<Track>, start: seq<nat>, out: seq<Line>,
                                  trace: seq<Cpu>, i: nat, n: nat) returns (longer: seq<Cpu>)
    requires Passed(t, labels, tracks, start, out) && t.d.core.Pic14? && |start| == |t.lines| + 1
    requires i < |t.lines| && start[i] + n < start[i + 1] <= |out|
    requires Run(t.d, out, trace) && trace[|trace| - 1].pc == start[i]
    ensures Run(t.d, out, longer) && |longer| == |trace| + n && longer[..|trace|] == trace
    ensures var e := longer[|longer| - 1];
            e.pc == start[i] + n && e.bank == RunSelects(t.d, out[start[i]..start[i] + n], trace[|trace| - 1].bank)
  {
    hide Passed, RunSelects, ImageOk, TrackStep, Rewritten;
    if n == 0 {
      longer := trace;
      NoSelects(t.d, out, start[i], trace[|trace| - 1].bank);
    } else {
      var before := Onward(t, labels, tracks, start, out, trace, i, n - 1);
      LineAtIs(t, labels, tracks, start, out, i);
      var q := start[i] + n - 1;
      var s := before[|before| - 1];
      assert IsSelect(out[q]);
      var s' := Cpu(q + 1, s.stack, Apply(t.d, out[q], s.bank));
      assert Step(t.d, out, s, s');
      longer := before + [s'];
      assert out[start[i]..q + 1] == out[start[i]..q] + [out[q]];
      RunSelectsSnoc(t.d, out[start[i]..q], out[q], trace[|trace| - 1].bank);
      RunLonger(t.d, out, before, s');
    }
  }

  lemma NoSelects(d: Device, out: seq<Line>, a: nat, b: nat)
    requires a <= |out|
    ensures RunSelects(d, out[a..a + 0], b) == b
  {
    assert out[a..a + 0] == [];
  }

  lemma RunLonger(d: Device, out: seq<Line>, trace: seq<Cpu>, s: Cpu)
    requires Run(d, out, trace) && Step(d, out, trace[|trace| - 1], s)
    ensures Run(d, out, trace + [s])
  {
    hide Step;
    var longer := trace + [s];
    forall k: nat | k + 1 < |longer| ensures StepAt(d, out, longer, k) {
      if k + 1 < |trace| { assert StepAt(d, out, trace, k); }
    }
  }

  lemma RunPrefix(d: Device, out: seq<Line>, trace: seq<Cpu>, k: nat)
    requires Run(d, out, trace) && k < |trace|
    ensures Run(d, out, trace[..k + 1])
  {
    hide Step;
    var short := trace[..k + 1];
    forall j: nat | j + 1 < |short| ensures StepAt(d, out, short, j) {
      assert StepAt(d, out, trace, j);
    }
  }

  // ---- The exact condition -----------------------------------------------------------

  /** Every run executes every banked operand in its own bank. */
  ghost predicate RunsRight(t: Text, start: seq<nat>, out: seq<Line>)
    requires |t.d.banks| > 0 && |start| == |t.lines| + 1
  {
    forall trace: seq<Cpu>, k: nat :: Started(t, start, out, trace) && k < |trace| ==> BankRight(t, start, trace[k])
  }

  /** Whenever a run comes to a line, the RP bits its selects leave alone are right. */
  ghost predicate ArrivalsRight(t: Text, tracks: seq<Track>, start: seq<nat>, out: seq<Line>)
    requires |t.d.banks| > 0 && |start| == |t.lines| + 1 == |tracks|
  {
    forall trace: seq<Cpu>, k: nat, i: nat ::
      Started(t, start, out, trace) && k < |trace| && i < |t.lines| && trace[k].pc == start[i] ==>
        ArrivesRight(t, tracks, i, trace[k].bank)
  }

  /** The rewriting is right in every run exactly when every run comes to every access with the
      RP bits right that the tracked bank has right: through labels, calls, returns and skips,
      with hand-written RP-bit writes anywhere. */
  lemma RunsExact(t: Text, labels: Labels, tracks: seq<Track>, start: seq<nat>, out: seq<Line>)
    requires Passed(t, labels, tracks, start, out) && t.d.core.Pic14? && |t.d.banks| > 0
    requires |start| == |t.lines| + 1 == |tracks|
    ensures RunsRight(t, start, out) <==> ArrivalsRight(t, tracks, start, out)
  {
    hide Passed, Started, InImage, ArrivesRight, RunSelects;
    if ArrivalsRight(t, tracks, start, out) {
      forall trace: seq<Cpu>, k: nat | Started(t, start, out, trace) && k < |trace|
        ensures BankRight(t, start, trace[k])
      {
        forall i: nat | i < |t.lines| ensures BankRightAt(t, start, trace[k], i) {
          RightFromArrival(t, labels, tracks, start, out, trace, k, i);
        }
      }
    }
    if RunsRight(t, start, out) {
      forall trace: seq<Cpu>, k: nat, i: nat
        | Started(t, start, out, trace) && k < |trace| && i < |t.lines| && trace[k].pc == start[i]
        ensures ArrivesRight(t, tracks, i, trace[k].bank)
      {
        ArrivalFromRight(t, labels, tracks, start, out, trace, k, i);
      }
    }
  }

  lemma RightFromArrival(t: Text, labels: Labels, tracks: seq<Track>, start: seq<nat>, out: seq<Line>,
                         trace: seq<Cpu>, k: nat, i: nat)
    requires Passed(t, labels, tracks, start, out) && t.d.core.Pic14? && |t.d.banks| > 0
    requires |start| == |t.lines| + 1 == |tracks| && ArrivalsRight(t, tracks, start, out)
    requires Started(t, start, out, trace) && k < |trace| && i < |t.lines|
    ensures BankRightAt(t, start, trace[k], i)
  {
    hide Passed, Started, ArrivesRight, RunSelects, OperandBank;
    if trace[k].pc + 1 == start[i + 1] && OperandBank(t.d, t.lines[i]).Some? {
      RunShape(t, labels, tracks, start, out, trace, k);
      LineAtIs(t, labels, tracks, start, out, i);
      var j: nat, n: nat :| InImage(t, start, out, trace, k, j, n);
      OneImage(t, labels, tracks, start, out, i, j, trace[k].pc);
      assert ArrivesRight(t, tracks, i, trace[k - n].bank);
      SelectsDo(t, labels, tracks, start, out, i, trace[k - n].bank);
    }
  }

  /** A position belongs to one image. */
  lemma OneImage(t: Text, labels: Labels, tracks: seq<Track>, start: seq<nat>, out: seq<Line>, i: nat, j: nat, pc: nat)
    requires Passed(t, labels, tracks, start, out) && |start| == |t.lines| + 1 && i < |t.lines| && j < |t.lines|
    requires start[i] <= pc < start[i + 1] && start[j] <= pc < start[j + 1]
    ensures i == j
  {
    hide Passed;
    if i < j && i + 1 < j { StartsRise(t, labels, tracks, start, out, i + 1, j); }
    if j < i && j + 1 < i { StartsRise(t, labels, tracks, start, out, j + 1, i); }
  }

  lemma ArrivalFromRight(t: Text, labels: Labels, tracks: seq<Track>, start: seq<nat>, out: seq<Line>,
                         trace: seq<Cpu>, k: nat, i: nat)
    requires Passed(t, labels, tracks, start, out) && t.d.core.Pic14? && |t.d.banks| > 0
    requires |start| == |t.lines| + 1 == |tracks| && RunsRight(t, start, out)
    requires Started(t, start, out, trace) && k < |trace| && i < |t.lines| && trace[k].pc == start[i]
    ensures ArrivesRight(t, tracks, i, trace[k].bank)
  {
    hide Passed, RunSelects, OperandBank, Step, Initial, OthersRight;
    if OperandBank(t.d, t.lines[i]).Some? {
      RunShape(t, labels, tracks, start, out, trace, k);
      SelectsDo(t, labels, tracks, start, out, i, trace[k].bank);
      RunPrefix(t.d, out, trace, k);
      var n: nat := start[i + 1] - 1 - start[i];
      var short := trace[..k + 1];
      var longer := Onward(t, labels, tracks, start, out, short, i, n);
      assert longer[0] == longer[..|short|][0] == trace[0];
      assert Started(t, start, out, longer);
      assert BankRight(t, start, longer[|longer| - 1]);
      assert BankRightAt(t, start, longer[|longer| - 1], i);
    }
  }
}
