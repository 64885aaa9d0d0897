/** The rewriting pass: one scan that tracks the selected bank, puts bank selects in front of
    operands the tracked bank does not serve, and makes operand addresses bank-relative. */
module BankScan {
  import opened Wrappers
  import opened Devices
  import opened BankText
  import opened BankAnalysis

  /** The tracked bank; `cur` is stale while it is not `known`. */
  datatype Track = Track(known: bool, cur: nat)

  // ---- Bank selects ------------------------------------------------------------------

  predicate Bit(b: nat, mask: nat) {
    mask > 0 && (b / mask) % 2 == 1
  }

  function SetBit(b: nat, mask: nat, on: bool): nat {
    if on && !Bit(b, mask) then b + mask
    else if !on && Bit(b, mask) && b >= mask then b - mask
    else b
  }

  /** What a select line does to the bank register. */
  function Apply(d: Device, l: Line, b: nat): nat {
    match l
    case RpBit(mask, on) => if d.core.Pic14e? then b else SetBit(b, mask, on)
    case MovLb(k) => if d.core.Pic14e? then k else b
    case _ => b
  }

  function RunSelects(d: Device, sel: seq<Line>, b: nat): nat {
    if sel == [] then b else RunSelects(d, sel[1..], Apply(d, sel[0], b))
  }

  predicate IsSelect(l: Line) {
    l.RpBit? || l.MovLb?
  }

  /** The select of one RP bit: none when the tracked bit is known to be right. */
  function BitSelect(cur: nat, bank: nat, mask: nat, full: bool): seq<Line> {
    if full || Bit(cur, mask) != Bit(bank, mask) then [RpBit(mask, Bit(bank, mask))] else []
  }

  /** Write the RP bits that differ, or both when nothing is known of them. */
  method EmitBanksel(d: Device, cur: nat, bank: nat, full: bool) returns (sel: seq<Line>, cur': nat)
    requires !d.core.Pic14e? && cur < 4 && bank < 4
    ensures cur' == bank
    ensures SelectsOk(d, Track(!full, cur), bank, sel)
  {
    sel, cur' := [], cur;
    for m := 0 to 2
      invariant m == 0 ==> cur' == cur && sel == []
      invariant m == 1 ==> cur' == SetBit(cur, 1, Bit(bank, 1)) && sel == BitSelect(cur, bank, 1, full)
      invariant m == 2 ==> cur' == bank && sel == BitSelect(cur, bank, 1, full) + BitSelect(cur, bank, 2, full)
    {
      var mask := if m == 0 then 1 else 2;
      var target := Bit(bank, mask);
      if full || Bit(cur', mask) != target {
        sel := sel + [RpBit(mask, target)];
        cur' := SetBit(cur', mask, target);
      }
      Bits(cur, bank);
    }
    EmittedOk(d, cur, bank, full, sel);
  }

  lemma Bits(b: nat, k: nat)
    requires b < 4 && k < 4
    ensures var b' := SetBit(b, 1, Bit(k, 1)); Bit(b', 2) == Bit(b, 2) && SetBit(b', 2, Bit(k, 2)) == k
    ensures Bit(b, 1) == Bit(k, 1) ==> SetBit(b, 1, Bit(k, 1)) == b
    ensures var b' := SetBit(b, 1, Bit(k, 1)); Bit(b, 2) == Bit(k, 2) ==> b' == k
    ensures Bit(b, 1) == Bit(k, 1) && Bit(b, 2) == Bit(k, 2) ==> b == k
  {
    assert b == 0 || b == 1 || b == 2 || b == 3;
    assert k == 0 || k == 1 || k == 2 || k == 3;
  }

  lemma EmittedOk(d: Device, cur: nat, bank: nat, full: bool, sel: seq<Line>)
    requires !d.core.Pic14e? && cur < 4 && bank < 4
    requires sel == BitSelect(cur, bank, 1, full) + BitSelect(cur, bank, 2, full)
    ensures SelectsOk(d, Track(!full, cur), bank, sel)
  {
    Bits(cur, bank);
    hide Bit, SetBit;
    forall b: nat | b < BankLimit(d) && (!full ==> b == cur) ensures RunSelects(d, sel, b) == bank {
      Bits(b, bank);
      if |sel| == 2 {
        assert sel[1..] == [sel[1]] && sel[1..][1..] == [];
        assert sel[0] == RpBit(1, Bit(bank, 1)) && sel[1] == RpBit(2, Bit(bank, 2));
        assert RunSelects(d, sel[1..], SetBit(b, 1, Bit(bank, 1))) == bank;
      } else if |sel| == 1 {
        assert sel[1..] == [];
        assert RunSelects(d, sel, b) == Apply(d, sel[0], b);
      }
    }
  }

  // ---- What the scan decides, line by line -------------------------------------------

  function LowestFrom(s: set<nat>, i: nat): nat
    requires i <= 32
    decreases 32 - i
  {
    if i == 32 || i in s then i else LowestFrom(s, i + 1)
  }

  /** The one bank of a single-bank set. */
  function SingleBank(s: set<nat>): (r: Option<nat>)
    requires s <= ALL_BANKS
    ensures r.Some? ==> s == {r.value}
    ensures r.None? ==> forall k: nat :: s != {k}
  {
    if |s| == 1 then
      assert exists k :: s == {k} by {
        var k :| k in s;
        assert |s - {k}| == 0;
        assert s == {k};
      }
      LowestIs(s);
      Some(LowestFrom(s, 0))
    else None
  }

  lemma LowestIs(s: set<nat>)
    requires s <= ALL_BANKS && exists k :: s == {k}
    ensures s == {LowestFrom(s, 0)}
  {
    var k: nat :| s == {k};
    assert k in s;
    LowestIsFrom(s, k, 0);
  }

  lemma {:induction false} LowestIsFrom(s: set<nat>, k: nat, i: nat)
    requires s == {k} && i <= k < 32
    ensures LowestFrom(s, i) == k
    decreases k - i
  {
    if i < k { LowestIsFrom(s, k, i + 1); }
  }

  function LabelBank(labels: Labels, n: Name): Option<nat>
    requires n in labels ==> labels[n] <= ALL_BANKS
  {
    if n in labels then SingleBank(labels[n]) else None
  }

  /** The banks a call is entered with, as far as the scan knows. */
  function EntryOf(tr: Track): set<nat> {
    if tr.known then {tr.cur} else ALL_BANKS
  }

  function AfterCall(tr: Track, e: set<nat>): Track
    requires e <= ALL_BANKS
  {
    match SingleBank(e)
    case Some(k) => Track(true, k)
    case None => Track(false, tr.cur)
  }

  ghost predicate CallTrack(t: Text, x: Name, tr: Track, tr': Track)
    requires |t.d.banks| > 0
  {
    exists e: set<nat> :: e <= ALL_BANKS && CallOk(t, x, EntryOf(tr), e) && CallTight(t, x, EntryOf(tr), e)
      && tr' == AfterCall(tr, e)
  }

  /** The tracked bank after a line that is neither a label, a call nor inline assembly. */
  function Linear(d: Device, l: Line, tr: Track): Track
    requires |d.banks| > 0
  {
    match Effect(d, l)
    case Some(Some(k)) => Track(true, k)
    case Some(None) => Track(false, tr.cur)
    case None =>
      match OperandBank(d, l)
      case Some(k) => Track(true, k)
      case None => tr
  }

  /** Recorded labels hold possible banks, are real and lie in a region, and every jump-free
      region's labels are covered from any entry bank. */
  ghost predicate LabelsSound(t: Text, labels: Labels)
    requires |t.d.banks| > 0
  {
    && (forall n :: n in labels ==>
          && labels[n] <= ALL_BANKS && Plausible(t, labels[n])
          && exists p: nat :: FirstOpener(t.lines) <= p < |t.lines| && t.lines[p] == Label(n))
    && SeedsCovered(t, |t.lines|, labels)
  }

  ghost predicate TrackStep(t: Text, labels: Labels, l: Line, tr: Track, tr': Track)
    requires |t.d.banks| > 0 && LabelsSound(t, labels)
  {
    match l
    case Label(n) =>
      tr' == (match LabelBank(labels, n) case Some(k) => Track(true, k) case None => Track(Bank0Only(t), tr.cur))
    case Call(x) => if Bank0Only(t) then tr' == Track(true, tr.cur) else CallTrack(t, x, tr, tr')
    case InlineAsm => tr' == Track(false, tr.cur)
    case _ => tr' == Linear(t.d, l, tr)
  }

  /** The selects the tracked bank asks for: the RP bits that differ, or both when nothing is
      known of them; on PIC14E one load of the whole bank register. */
  function SelectLines(d: Device, tr: Track, k: nat): seq<Line> {
    if d.core.Pic14e? then (if tr == Track(true, k) then [] else [MovLb(k)])
    else BitSelect(tr.cur, k, 1, !tr.known) + BitSelect(tr.cur, k, 2, !tr.known)
  }

  /** The select sequence reaches bank `k` from every bank the tracked one allows, is empty
      exactly when the tracked bank already is `k`, and holds nothing but selects. */
  ghost predicate SelectsOk(d: Device, tr: Track, k: nat, sel: seq<Line>) {
    && sel == SelectLines(d, tr, k)
    && (forall l <- sel :: IsSelect(l))
    && (sel == [] <==> tr == Track(true, k))
    && (forall b: nat :: b < BankLimit(d) && (tr.known ==> b == tr.cur) ==> RunSelects(d, sel, b) == k)
  }

  /** An operand in a bank becomes the 7-bit offset within it. */
  function Rewritten(d: Device, l: Line): Line
    requires |d.banks| > 0
  {
    if OperandBank(d, l).None? then l
    else
      match l
      case File(a) => File(a % 128)
      case Skip(Some(a)) => Skip(Some(a % 128))
      case _ => l
  }

  /** What line `l` becomes: selects its bank needs, then the line itself. */
  ghost predicate ImageOk(d: Device, l: Line, tr: Track, img: seq<Line>)
    requires |d.banks| > 0
  {
    && |img| > 0 && img[|img| - 1] == Rewritten(d, l)
    && match OperandBank(d, l)
       case Some(k) => SelectsOk(d, tr, k, img[..|img| - 1])
       case None => |img| == 1
  }

  ghost predicate LineOk(t: Text, labels: Labels, l: Line, tr: Track, tr': Track, img: seq<Line>)
    requires |t.d.banks| > 0 && LabelsSound(t, labels)
  {
    TrackStep(t, labels, l, tr, tr') && ImageOk(t.d, l, tr, img)
  }

  /** Line `i` became `out[start[i]..start[i + 1]]`. */
  ghost predicate LineAt(t: Text, labels: Labels, tracks: seq<Track>, start: seq<nat>, out: seq<Line>, i: nat)
    requires |t.d.banks| > 0 && LabelsSound(t, labels)
    requires |start| == |tracks| <= |t.lines| + 1 && i < |start| - 1
  {
    && start[i] <= start[i + 1] <= |out|
    && LineOk(t, labels, t.lines[i], tracks[i], tracks[i + 1], out[start[i]..start[i + 1]])
  }

  /** The first `|start| - 1` lines are scanned, and nothing else is in the output. */
  ghost predicate Scanned(t: Text, labels: Labels, tracks: seq<Track>, start: seq<nat>, out: seq<Line>)
    requires |t.d.banks| > 0 && LabelsSound(t, labels)
  {
    && 0 < |start| == |tracks| <= |t.lines| + 1
    && start[0] == 0 && start[|start| - 1] == |out| && tracks[0] == Track(true, 0)
    && (forall i: nat :: i < |start| - 1 ==> LineAt(t, labels, tracks, start, out, i))
    && (forall i :: 0 <= i < |tracks| ==> tracks[i].cur < BankLimit(t.d))
  }

  ghost predicate LocsAligned(locs: seq<Option<nat>>, start: seq<nat>, outLocs: seq<Option<nat>>)
    requires |start| > 0
  {
    && |outLocs| == start[|start| - 1]
    && forall i, q :: 0 <= i < |start| - 1 && start[i] <= q < start[i + 1] && q < |outLocs| ==>
      outLocs[q] == LocOf(locs, i)
  }

  /** The output is the text rewritten line by line, by what some sound analysis found. */
  ghost predicate IsRewriting(t: Text, locs: seq<Option<nat>>, out: seq<Line>, outLocs: seq<Option<nat>>)
    requires |t.d.banks| > 0
  {
    exists labels, tracks, start ::
      LabelsSound(t, labels) && Scanned(t, labels, tracks, start, out)
      && |start| == |t.lines| + 1 && LocsAligned(locs, start, outLocs)
  }

  function LocOf(locs: seq<Option<nat>>, i: nat): Option<nat> {
    if i < |locs| then locs[i] else None
  }

  // ---- The scan ----------------------------------------------------------------------

  lemma SinglePlausible(t: Text, s: set<nat>)
    requires |t.d.banks| > 0 && s <= ALL_BANKS && Plausible(t, s)
    ensures SingleBank(s).Some? ==> SingleBank(s).value < BankLimit(t.d)
    ensures SingleBank(s).Some? && Bank0Only(t) ==> SingleBank(s) == Some(0)
  {
    assert 0 in ALL_BANKS && 1 in ALL_BANKS;
    if SingleBank(s).Some? {
      assert s == {SingleBank(s).value} && SingleBank(s).value in s;
    }
  }

  lemma LinearPossible(t: Text, i: nat, tr: Track)
    requires Legal(t) && i < |t.lines| && tr.cur < BankLimit(t.d)
    ensures Linear(t.d, t.lines[i], tr).cur < BankLimit(t.d)
  {
    assert LineLegal(t.d, t.lines[i]);
  }

  /** The selects in front of an operand in bank `k`. */
  method Select(d: Device, tr: Track, k: nat) returns (sel: seq<Line>)
    requires tr.cur < BankLimit(d) && k < BankLimit(d)
    ensures SelectsOk(d, tr, k, sel)
  {
    sel := [];
    if !tr.known || k != tr.cur {
      if d.core.Pic14e? {
        sel := [MovLb(k)];
        assert sel[1..] == [] && forall b: nat :: RunSelects(d, sel, b) == RunSelects(d, [], k);
      } else {
        var cur;
        sel, cur := EmitBanksel(d, tr.cur, k, !tr.known);
        assert tr == Track(!!tr.known, tr.cur);
      }
    }
  }

  /** One line scanned: its image, and the tracked bank behind it. */
  method ScanLine(an: Analysis, labels: Labels, bank0Only: bool, i: nat, tr: Track)
      returns (img: seq<Line>, tr': Track)
    requires an.Valid() && i < |an.t.lines| && LabelsSound(an.t, labels)
    requires bank0Only == Bank0Only(an.t) && tr.cur < BankLimit(an.t.d) && !an.t.d.core.PicBaseline?
    modifies an`memo, an`labels
    ensures an.Valid()
    ensures LineOk(an.t, labels, an.t.lines[i], tr, tr', img) && tr'.cur < BankLimit(an.t.d)
  {
    var t := an.t;
    var l := t.lines[i];
    assert LineLegal(t.d, l) && Legal(t);
    assert forall n :: n in labels ==> labels[n] <= ALL_BANKS && Plausible(t, labels[n]);
    hide SelectsOk, Plausible, Linear, UniqueLabels, LabelsSound, TrackStep, ImageOk, Rewritten, OperandBank;
    img := LineImage(t.d, l, tr);
    if l.Label? {
      if l.name in labels { SinglePlausible(t, labels[l.name]); }
      match LabelBank(labels, l.name) {
        case Some(k) => tr' := Track(true, k);
        case None => tr' := Track(bank0Only, tr.cur);
      }
    } else if l.Call? {
      if bank0Only {
        tr' := Track(true, tr.cur);
      } else {
        EntryPlausible(t, tr);
        var e := an.FuncExitBank(l.target, EntryOf(tr));
        SinglePlausible(t, e);
        tr' := AfterCall(tr, e);
        assert CallTrack(t, l.target, tr, tr');
      }
    } else if l.InlineAsm? {
      tr' := Track(false, tr.cur);
    } else {
      LinearPossible(t, i, tr);
      tr' := Linear(t.d, l, tr);
    }
    TrackStepIs(t, labels, l, tr, tr');
  }

  /** The line with the selects its operand needs. */
  method LineImage(d: Device, l: Line, tr: Track) returns (img: seq<Line>)
    requires |d.banks| > 0 && tr.cur < BankLimit(d) && LineLegal(d, l)
    ensures ImageOk(d, l, tr, img)
  {
    img := [l];
    assert img[..0] == [];
    if OperandBank(d, l).Some? {
      var sel := Select(d, tr, OperandBank(d, l).value);
      img := sel + [Rewritten(d, l)];
      assert img[..|img| - 1] == sel;
    }
    ImageIs(d, l, tr, img);
  }

  lemma EntryPlausible(t: Text, tr: Track)
    requires |t.d.banks| > 0 && tr.cur < BankLimit(t.d) && !Bank0Only(t)
    ensures EntryOf(tr) <= ALL_BANKS && EntryOf(tr) != {} && Plausible(t, EntryOf(tr))
  {
  }

  lemma TrackStepIs(t: Text, labels: Labels, l: Line, tr: Track, tr': Track)
    requires |t.d.banks| > 0 && LabelsSound(t, labels)
    requires if l.Label? then
               tr' == (match LabelBank(labels, l.name)
                       case Some(k) => Track(true, k)
                       case None => Track(Bank0Only(t), tr.cur))
             else if l.Call? then if Bank0Only(t) then tr' == Track(true, tr.cur) else CallTrack(t, l.target, tr, tr')
             else if l.InlineAsm? then tr' == Track(false, tr.cur)
             else tr' == Linear(t.d, l, tr)
    ensures TrackStep(t, labels, l, tr, tr')
  {
    hide LabelsSound, CallTrack, Linear;
  }

  lemma ImageIs(d: Device, l: Line, tr: Track, img: seq<Line>)
    requires |d.banks| > 0
    requires if OperandBank(d, l).Some?
             then |img| > 0 && img[|img| - 1] == Rewritten(d, l)
                  && SelectsOk(d, tr, OperandBank(d, l).value, img[..|img| - 1])
             else img == [l]
    ensures ImageOk(d, l, tr, img)
  {
    hide SelectsOk;
  }

  /** The whole pass. `tracks` and `start` witness what was tracked and where each line went. */
  method AssignBanks(t: Text, locs: seq<Option<nat>>, ghost rank: seq<nat>)
      returns (out: seq<Line>, outLocs: seq<Option<nat>>,
               ghost labels: Labels, ghost tracks: seq<Track>, ghost start: seq<nat>)
    requires Legal(t) && Ranked(t.lines, rank) && !t.d.core.PicBaseline?
    ensures LabelsSound(t, labels) && Scanned(t, labels, tracks, start, out)
    ensures Returns(t) ==> forall n, b: nat :: n in labels && b in labels[n] ==> LabelSeen(t, n, b)
    ensures |start| == |t.lines| + 1 && LocsAligned(locs, start, outLocs)
    ensures IsRewriting(t, locs, out, outLocs)
  {
    var bank0Only := Bank0Only(t);
    var an := new Analysis(t, rank);
    an.LabelProvableBanks();
    var labelBank := an.labels;
    assert LabelsSound(t, labelBank);
    an.labels := map[];
    out, outLocs, labels, tracks, start := [], [], labelBank, [Track(true, 0)], [0];
    var tr := Track(true, 0);
    var i := 0;
    while i < |t.lines|
      invariant i <= |t.lines| && an.Valid() && an.t == t
      invariant |start| == i + 1 == |tracks| && tr == tracks[i]
      invariant Scanned(t, labels, tracks, start, out) && LocsAligned(locs, start, outLocs)
    {
      var img, tr' := ScanLine(an, labelBank, bank0Only, i, tr);
      ScannedSnoc(t, labels, tracks, start, out, img, tr');
      StartsInside(t, labels, tracks, start, out);
      LocsSnoc(locs, start, outLocs, |img|);
      out := out + img;
      outLocs := outLocs + seq(|img|, _ => if i < |locs| then locs[i] else None);
      start := start + [|out|];
      tracks := tracks + [tr'];
      tr := tr';
      i := i + 1;
    }
  }

  lemma ScannedSnoc(t: Text, labels: Labels, tracks: seq<Track>, start: seq<nat>, out: seq<Line>,
                    img: seq<Line>, tr': Track)
    requires |t.d.banks| > 0 && LabelsSound(t, labels) && Scanned(t, labels, tracks, start, out)
    requires |start| <= |t.lines|
    requires LineOk(t, labels, t.lines[|start| - 1], tracks[|start| - 1], tr', img) && tr'.cur < BankLimit(t.d)
    ensures Scanned(t, labels, tracks + [tr'], start + [|out + img|], out + img)
  {
    hide LabelsSound, LineOk;
    var tracks', start', out' := tracks + [tr'], start + [|out + img|], out + img;
    forall i: nat | i < |start'| - 1 ensures LineAt(t, labels, tracks', start', out', i) {
      if i < |start| - 1 {
        assert LineAt(t, labels, tracks, start, out, i);
        assert out'[start[i]..start[i + 1]] == out[start[i]..start[i + 1]];
      } else {
        assert out'[|out|..|out'|] == img;
      }
    }
  }

  lemma StartsInside(t: Text, labels: Labels, tracks: seq<Track>, start: seq<nat>, out: seq<Line>)
    requires |t.d.banks| > 0 && LabelsSound(t, labels) && Scanned(t, labels, tracks, start, out)
    ensures forall i :: 0 <= i < |start| ==> start[i] <= |out|
  {
    hide LabelsSound, LineOk;
    forall i | 0 <= i < |start| ensures start[i] <= |out| {
      if i < |start| - 1 { assert LineAt(t, labels, tracks, start, out, i); }
    }
  }

  lemma LocsSnoc(locs: seq<Option<nat>>, start: seq<nat>, outLocs: seq<Option<nat>>, n: nat)
    requires |start| > 0 && LocsAligned(locs, start, outLocs)
    requires forall i :: 0 <= i < |start| ==> start[i] <= |outLocs|
    ensures LocsAligned(locs, start + [|outLocs| + n], outLocs + seq(n, _ => LocOf(locs, |start| - 1)))
  {
  }
}
