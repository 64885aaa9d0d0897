/** The pass is sound: in every run, every banked operand executes with its own bank selected,
    and so reaches the address its source line named. */
module BankSoundness {
  import opened Wrappers
  import opened Devices
  import opened BankText
  import opened BankAnalysis
  import opened BankScan
  import opened BankMachine
  import opened BankInvariant

  // ---- Programs that stay in bank 0 --------------------------------------------------

  lemma {:induction false} TracksStayZero(t: Text, labels: Labels, tracks: seq<Track>, start: seq<nat>, out: seq<Line>,
                                          i: nat)
    requires |t.d.banks| > 0 && |start| == |t.lines| + 1 == |tracks| && Passed(t, labels, tracks, start, out)
    requires Bank0Only(t) && i <= |t.lines|
    ensures tracks[i] == Track(true, 0)
  {
    hide Passed, Bank0Only;
    LastStart(t, labels, tracks, start, out);
    if i > 0 {
      TracksStayZero(t, labels, tracks, start, out, i - 1);
      NextTrackZero(t, labels, tracks, start, out, i - 1);
    }
  }

  lemma NextTrackZero(t: Text, labels: Labels, tracks: seq<Track>, start: seq<nat>, out: seq<Line>, i: nat)
    requires |t.d.banks| > 0 && |start| == |t.lines| + 1 == |tracks| && Passed(t, labels, tracks, start, out)
    requires Bank0Only(t) && i < |t.lines| && tracks[i] == Track(true, 0)
    ensures tracks[i + 1] == Track(true, 0)
  {
    assert LineKeepsBank0(t.d, t.lines[i]);
    hide Bank0Only, Passed, ImageOk, LabelsSound, LineLegal, Legal, Suitable, SkipsClear, OperandBank, IsSelect;
    LineAtIs(t, labels, tracks, start, out, i);
    PassedIs(t, labels, tracks, start, out, i);
    if t.lines[i].Label? { LabelStaysZero(t, labels, t.lines[i].name); }
  }

  lemma LabelStaysZero(t: Text, labels: Labels, n: Name)
    requires |t.d.banks| > 0 && LabelsSound(t, labels) && Bank0Only(t)
    ensures LabelBank(labels, n).Some? ==> LabelBank(labels, n) == Some(0)
  {
    if n in labels { SinglePlausible(t, labels[n]); }
  }

  lemma StepZero(t: Text, labels: Labels, tracks: seq<Track>, start: seq<nat>, out: seq<Line>, s: Cpu, s': Cpu)
    requires |t.d.banks| > 0 && |start| == |t.lines| + 1 == |tracks| && Passed(t, labels, tracks, start, out)
    requires Bank0Only(t) && s.bank == 0 && Step(t.d, out, s, s')
    ensures s'.bank == 0
  {
    hide Passed, LabelsSound, LineLegal, Legal, Suitable, SkipsClear, Bank0Only, OperandBank, TrackStep;
    LastStart(t, labels, tracks, start, out);
    var i := Locate(t, labels, tracks, start, out, s.pc, |t.lines|);
    LineAtIs(t, labels, tracks, start, out, i);
    TracksStayZero(t, labels, tracks, start, out, i);
    LineStaysZero(t, i);
    var img := Image(start, out, i);
    if OperandBank(t.d, t.lines[i]).Some? {
      assert img[..|img| - 1] == [];
    }
    assert out[s.pc] == Rewritten(t.d, t.lines[i]);
  }

  lemma LineStaysZero(t: Text, i: nat)
    requires |t.d.banks| > 0 && Bank0Only(t) && i < |t.lines|
    ensures OperandBank(t.d, t.lines[i]).Some? ==> OperandBank(t.d, t.lines[i]) == Some(0)
    ensures var l := t.lines[i]; !l.InlineAsm? && Effect(t.d, l).None?
  {
    assert LineKeepsBank0(t.d, t.lines[i]);
  }

  // ---- Soundness ---------------------------------------------------------------------

  /** Reset at bank 0, or, unless the program is known to stay in bank 0, any region opener
      at any bank: an interrupt entry, or a caller outside the text. */
  ghost predicate Initial(t: Text, start: seq<nat>, s: Cpu)
    requires |t.d.banks| > 0 && |start| == |t.lines| + 1
  {
    s.stack == [] &&
    (|| (s.pc == 0 && s.bank == 0)
     || (!Bank0Only(t) && s.bank < BankLimit(t.d) && AtOpener(t, start, s.pc)))
  }

  ghost predicate AtOpener(t: Text, start: seq<nat>, pc: nat)
    requires |start| == |t.lines| + 1
  {
    exists lo: nat :: IsOpener(t.lines, lo) && pc == start[lo]
  }

  lemma InitialSafe(t: Text, labels: Labels, tracks: seq<Track>, start: seq<nat>, out: seq<Line>, s: Cpu)
    requires |t.d.banks| > 0 && |start| == |t.lines| + 1 == |tracks| && Passed(t, labels, tracks, start, out)
    requires !Bank0Only(t) && Initial(t, start, s)
    ensures Safe(t, tracks, start, out, s)
  {
    hide Passed, Bank0Only, Placed, Follows, Safe, Image;
    LastStart(t, labels, tracks, start, out);
    if AtOpener(t, start, s.pc) && s.bank < BankLimit(t.d) {
      var lo: nat :| IsOpener(t.lines, lo) && s.pc == start[lo];
      var f := Enter(t, lo, s.bank);
      Land(t, labels, tracks, start, out, s, lo, f, []);
    } else if |t.lines| > 0 {
      var f := Enter(t, 0, 0);
      Land(t, labels, tracks, start, out, s, 0, f, []);
    } else {
      Land(t, labels, tracks, start, out, s, 0, Stub, []);
    }
  }

  lemma {:induction false} RunSafe(t: Text, labels: Labels, tracks: seq<Track>, start: seq<nat>, out: seq<Line>,
                                   trace: seq<Cpu>, k: nat)
    requires |t.d.banks| > 0 && |start| == |t.lines| + 1 == |tracks| && Passed(t, labels, tracks, start, out)
    requires Run(t.d, out, trace) && Initial(t, start, trace[0]) && k < |trace|
    requires RawSelectsOk(t, tracks)
    ensures if Bank0Only(t) then trace[k].bank == 0 else Safe(t, tracks, start, out, trace[k])
  {
    hide Passed, Bank0Only, Safe, Step;
    if k == 0 {
      if !Bank0Only(t) { InitialSafe(t, labels, tracks, start, out, trace[0]); }
    } else {
      RunSafe(t, labels, tracks, start, out, trace, k - 1);
      assert StepAt(t.d, out, trace, k - 1);
      if Bank0Only(t) {
        StepZero(t, labels, tracks, start, out, trace[k - 1], trace[k]);
      } else {
        StepSafe(t, labels, tracks, start, out, trace[k - 1], trace[k]);
      }
    }
  }

  lemma {:induction false} StartsRise(t: Text, labels: Labels, tracks: seq<Track>, start: seq<nat>, out: seq<Line>,
                                      i: nat, j: nat)
    requires Passed(t, labels, tracks, start, out) && |start| == |t.lines| + 1 && i < j <= |t.lines|
    ensures start[i] < start[j]
    decreases j - i
  {
    hide Passed, ImageOk, TrackStep;
    LineAtIs(t, labels, tracks, start, out, j - 1);
    if i < j - 1 { StartsRise(t, labels, tracks, start, out, i, j - 1); }
  }

  lemma SafeIsRight(t: Text, labels: Labels, tracks: seq<Track>, start: seq<nat>, out: seq<Line>, s: Cpu, i: nat)
    requires |t.d.banks| > 0 && |start| == |t.lines| + 1 == |tracks| && Passed(t, labels, tracks, start, out)
    requires Safe(t, tracks, start, out, s) && i < |t.lines|
    ensures BankRightAt(t, start, s, i)
  {
    hide Passed, Inv, Placed, Stacked, Matches, TrackStep, ImageOk, Rewritten, IsSelect, BankLimit;
    if s.pc + 1 == start[i + 1] {
      LineAtIs(t, labels, tracks, start, out, i);
      var g :| Inv(t, tracks, start, out, s, g);
      InvParts(t, tracks, start, out, s, g);
      if i < g.i {
        StartsRise(t, labels, tracks, start, out, i, g.i);
        if i + 1 < g.i { StartsRise(t, labels, tracks, start, out, i + 1, g.i); }
        assert false;
      } else if g.i < i {
        if g.i + 1 < i { StartsRise(t, labels, tracks, start, out, g.i + 1, i); }
        assert false;
      }
      AtHome(t, labels, tracks, start, out, s, g);
    }
  }

  /** Banking is sound: in every run of the rewritten text, every banked operand executes
      with its own bank selected. */
  lemma BankingSound(t: Text, labels: Labels, tracks: seq<Track>, start: seq<nat>, out: seq<Line>,
                     trace: seq<Cpu>, k: nat)
    requires |t.d.banks| > 0 && |start| == |t.lines| + 1 == |tracks| && Passed(t, labels, tracks, start, out)
    requires Run(t.d, out, trace) && Initial(t, start, trace[0]) && k < |trace|
    requires RawSelectsOk(t, tracks)
    ensures BankRight(t, start, trace[k])
  {
    hide Passed, Bank0Only, Safe, Run;
    RunSafe(t, labels, tracks, start, out, trace, k);
    forall i: nat | i < |t.lines| ensures BankRightAt(t, start, trace[k], i) {
      if Bank0Only(t) {
        LineStaysZero(t, i);
      } else {
        SafeIsRight(t, labels, tracks, start, out, trace[k], i);
      }
    }
  }

  /** The same for a text that shows its selects: no condition on what the pass found. */
  lemma BankingSoundText(t: Text, labels: Labels, tracks: seq<Track>, start: seq<nat>, out: seq<Line>,
                         trace: seq<Cpu>, k: nat)
    requires TextOk(t) && |t.d.banks| > 0 && LabelsSound(t, labels) && Scanned(t, labels, tracks, start, out)
    requires |start| == |t.lines| + 1 == |tracks|
    requires Run(t.d, out, trace) && Initial(t, start, trace[0]) && k < |trace|
    ensures BankRight(t, start, trace[k])
  {
    hide TextOk, LabelsSound, Scanned, Run, Initial, Passed, BankRight;
    TextOkPasses(t, labels, tracks, start, out);
    BankingSound(t, labels, tracks, start, out, trace, k);
  }

  // ---- The address actually reached --------------------------------------------------

  /** Bank `i` is the 128-byte page `i` of the data memory. */
  ghost predicate Paged(d: Device) {
    forall i :: 0 <= i < |d.banks| ==> d.banks[i].lo / 128 == i && d.banks[i].hi / 128 == i
  }

  lemma BankIsPage(d: Device, a: nat, k: nat)
    requires |d.banks| > 0 && Paged(d) && d.BankOf(a) == Bank(k)
    ensures a / 128 == k && k * 128 + a % 128 == a
  {
  }

  /** A banked access of the output reaches the address its source line named. */
  lemma AccessKeepsAddress(t: Text, labels: Labels, tracks: seq<Track>, start: seq<nat>, out: seq<Line>,
                           trace: seq<Cpu>, k: nat, i: nat, a: nat)
    requires |t.d.banks| > 0 && |start| == |t.lines| + 1 == |tracks| && Passed(t, labels, tracks, start, out)
    requires Run(t.d, out, trace) && Initial(t, start, trace[0]) && k < |trace| && Paged(t.d)
    requires i < |t.lines| && trace[k].pc + 1 == start[i + 1] && OperandOf(t.lines[i]) == Some(a)
    requires RawSelectsOk(t, tracks)
    ensures trace[k].pc < |out| && OperandOf(out[trace[k].pc]).Some?
    ensures var r := OperandOf(out[trace[k].pc]).value;
            if OperandBank(t.d, t.lines[i]).Some? then trace[k].bank * 128 + r == a && r < 128 else r == a
  {
    BankingSound(t, labels, tracks, start, out, trace, k);
    hide Passed, Run, Initial, Paged;
    assert BankRightAt(t, start, trace[k], i);
    LineAtIs(t, labels, tracks, start, out, i);
    if OperandBank(t.d, t.lines[i]).Some? {
      BankIsPage(t.d, a, OperandBank(t.d, t.lines[i]).value);
    }
  }
}
