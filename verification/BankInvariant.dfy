/** The invariant of a run of the rewritten text: control stands in some line's image, in a
    frame entered with a known bank, every pending call has such a frame of its own, and the
    bank the scan tracked there is the real one. Every machine step keeps it. */
module BankInvariant {
  import opened Devices
  import opened BankText
  import opened BankAnalysis
  import opened BankScan
  import opened BankMachine

  // ---- Frames: where the current activation was entered ------------------------------

  /** `In(lo, b0)`: control is in the region at `lo`, entered with bank `b0`. `Stub`: ahead of
      every region. */
  datatype Frame = Stub | In(lo: nat, b0: nat)

  /** A pending call: its line, the bank it was made with, and the frame that made it. */
  datatype Site = Site(i: nat, b: nat, frame: Frame)

  ghost predicate Shows(t: Text, lo: nat, b0: nat, o: Obs)
    requires |t.d.banks| > 0 && lo < |t.lines|
  {
    exists n: nat :: Sees(t, lo, RegionEnd(t.lines, lo), lo, b0, o, n)
  }

  /** Whatever a run from line `i` with bank `b` shows, the region shows from its entry. */
  ghost predicate Follows(t: Text, lo: nat, b0: nat, i: nat, b: nat)
    requires |t.d.banks| > 0 && lo < |t.lines|
  {
    forall o: Obs, n: nat :: Sees(t, lo, RegionEnd(t.lines, lo), i, b, o, n) ==> Shows(t, lo, b0, o)
  }

  ghost predicate Placed(t: Text, f: Frame, i: nat, b: nat)
    requires |t.d.banks| > 0
  {
    && b < BankLimit(t.d)
    && match f
       case Stub => i < FirstOpener(t.lines)
       case In(lo, b0) =>
         && IsOpener(t.lines, lo) && lo <= i < RegionEnd(t.lines, lo) && b0 < BankLimit(t.d)
         && Follows(t, lo, b0, i, b)
  }

  /** The frame above a call is the callee's, or the callee was left and anything may come back. */
  ghost predicate Above(t: Text, site: Site, f: Frame)
    requires |t.d.banks| > 0
  {
    && site.i < |t.lines| && t.lines[site.i].Call?
    && var p := RegionOf(t.lines, t.lines[site.i].target);
       p.Some? && (f == In(p.value, site.b) || Shows(t, p.value, site.b, Left))
  }

  lemma OpenerUnique(ls: seq<Line>, lo: nat, i: nat)
    requires IsOpener(ls, lo) && lo <= i < RegionEnd(ls, lo)
    ensures FirstOpener(ls) <= i && OpenerOf(ls, i) == lo
    decreases i
  {
    if i > lo {
      OpenerUnique(ls, lo, i - 1);
    }
  }

  lemma FollowsStep(t: Text, lo: nat, b0: nat, i: nat, b: nat, i': nat, b': nat, k: nat)
    requires |t.d.banks| > 0 && lo < |t.lines| && lo <= i < RegionEnd(t.lines, lo)
    requires Follows(t, lo, b0, i, b) && Next(t, RegionEnd(t.lines, lo), i, b, i', b', k)
    ensures Follows(t, lo, b0, i', b')
  {
    hide Sees, Next, Shows;
    var hi := RegionEnd(t.lines, lo);
    forall o: Obs, n: nat | Sees(t, lo, hi, i', b', o, n) ensures Shows(t, lo, b0, o) {
      SeesStep(t, lo, hi, i, b, i', b', o, k, n);
    }
  }

  lemma FollowsSelf(t: Text, lo: nat, b0: nat)
    requires |t.d.banks| > 0 && lo < |t.lines|
    ensures Follows(t, lo, b0, lo, b0)
  {
    hide Sees;
  }

  /** A region just entered. */
  lemma Enter(t: Text, i: nat, b: nat) returns (f: Frame)
    requires |t.d.banks| > 0 && i < |t.lines| && b < BankLimit(t.d)
    requires IsOpener(t.lines, i) || i < FirstOpener(t.lines)
    ensures Placed(t, f, i, b)
    ensures IsOpener(t.lines, i) ==> f == In(i, b)
  {
    hide IsOpener;
    if IsOpener(t.lines, i) {
      f := In(i, b);
      FollowsSelf(t, i, b);
    } else {
      f := Stub;
    }
  }

  /** Control passes from line `i` to line `i'`: it stays in its frame or leaves the region,
      and then every call below has been told so. */
  lemma Arrive(t: Text, f: Frame, i: nat, b: nat, i': nat, b': nat, k: nat) returns (f': Frame)
    requires |t.d.banks| > 0 && i < |t.lines| && i' < |t.lines|
    requires Placed(t, f, i, b) && b' < BankLimit(t.d) && Stays(t.lines, i, i')
    requires f.In? ==> Next(t, RegionEnd(t.lines, f.lo), i, b, i', b', k)
    ensures Placed(t, f', i', b')
    ensures forall site :: Above(t, site, f) ==> Above(t, site, f')
  {
    hide IsOpener, Next, Follows, Shows;
    if f.In? {
      OpenerUnique(t.lines, f.lo, i);
      FollowsStep(t, f.lo, f.b0, i, b, i', b', k);
      if f.lo <= i' < RegionEnd(t.lines, f.lo) {
        f' := f;
      } else {
        LeftShown(t, f.lo, f.b0, i', b');
        f' := Enter(t, i', b');
      }
    } else {
      f' := Enter(t, i', b');
    }
  }

  lemma LeftShown(t: Text, lo: nat, b0: nat, i: nat, b: nat)
    requires |t.d.banks| > 0 && lo < |t.lines| && !(lo <= i < RegionEnd(t.lines, lo))
    requires Follows(t, lo, b0, i, b)
    ensures Shows(t, lo, b0, Left)
  {
    assert Sees(t, lo, RegionEnd(t.lines, lo), i, b, Left, 1);
  }

  /** The line after a line of a span. */
  lemma StaysNext(ls: seq<Line>, i: nat)
    requires i + 1 < |ls|
    ensures Stays(ls, i, i + 1)
  {
    hide IsOpener;
  }

  lemma StaysInSpan(ls: seq<Line>, i: nat, j: nat)
    requires i < |ls| && i <= j < |ls| && j <= SpanEnd(ls, i)
    ensures Stays(ls, i, j)
  {
    hide IsOpener;
    if FirstOpener(ls) <= i && j < SpanEnd(ls, i) {
      OpenerUnique(ls, OpenerOf(ls, i), j);
    }
  }

  // ---- The tracked bank is the real bank ---------------------------------------------

  ghost predicate Matches(tr: Track, l: Line, b: nat) {
    l.Label? || (tr.known ==> tr.cur == b)
  }

  lemma LinearMatches(d: Device, l: Line, tr: Track, b: nat, b': nat)
    requires |d.banks| > 0 && (tr.known ==> tr.cur == b)
    requires BankAfter(d, l, b, b')
    ensures Linear(d, l, tr).known ==> Linear(d, l, tr).cur == b'
  {
  }

  /** A label reached with bank `b` that some jump-free region's run shows is tracked right. */
  lemma LabelMatches(t: Text, labels: Labels, f: Frame, i: nat, p: nat, b: nat, tr: Track, tr': Track)
    requires Suitable(t) && LabelsSound(t, labels) && !Bank0Only(t)
    requires i <= p < |t.lines| && t.lines[p].Label? && TrackStep(t, labels, t.lines[p], tr, tr')
    requires f.Stub? ==> p < FirstOpener(t.lines)
    requires f.In? ==> IsOpener(t.lines, f.lo) && f.b0 < BankLimit(t.d) && Shows(t, f.lo, f.b0, AtLabel(p, b))
    ensures tr'.known ==> tr'.cur == b
  {
    hide Sees, Bank0Only, IsOpener, Plausible;
    var n := t.lines[p].name;
    if f.In? {
      NoComputedJump(t, f.lo);
      assert LabelsCovered(t, f.lo, ALL_BANKS, labels);
      assert f.b0 in ALL_BANKS;
      assert LabelHas(labels, t.lines[p], b);
    } else {
      assert n !in labels;
    }
  }

  lemma NoComputedJump(t: Text, lo: nat)
    requires Suitable(t) && lo < |t.lines|
    ensures !HasComputedJump(t.lines, lo)
  {
    forall i: nat | lo <= i < RegionEnd(t.lines, lo) ensures !(t.lines[i].Table? || t.lines[i].MovPcl?) {
      assert LineSuitable(t, i);
    }
  }

  /** What a label itself shows. */
  lemma LabelShown(t: Text, lo: nat, b0: nat, i: nat, b: nat)
    requires |t.d.banks| > 0 && lo < |t.lines| && lo <= i < RegionEnd(t.lines, lo) && t.lines[i].Label?
    requires Follows(t, lo, b0, i, b)
    ensures Shows(t, lo, b0, AtLabel(i, b))
  {
    assert Sees(t, lo, RegionEnd(t.lines, lo), i, b, AtLabel(i, b), 1);
  }

  /** What a skip shows of the labels behind it. */
  lemma SkipShown(t: Text, lo: nat, b0: nat, i: nat, b: nat, p: nat)
    requires |t.d.banks| > 0 && lo < |t.lines| && lo <= i < RegionEnd(t.lines, lo) && t.lines[i].Skip?
    requires Follows(t, lo, b0, i, b) && i < p < AfterLabels(t.lines, i + 1, RegionEnd(t.lines, lo))
    ensures Shows(t, lo, b0, AtLabel(p, Pinned(t.d, t.lines[i], b)))
  {
    assert Sees(t, lo, RegionEnd(t.lines, lo), i, b, AtLabel(p, Pinned(t.d, t.lines[i], b)), 1);
  }

  // ---- The invariant -----------------------------------------------------------------

  /** The bank while a line's image runs, `q` lines into it, entered with bank `b`. */
  ghost predicate BankAt(d: Device, l: Line, b: nat, img: seq<Line>, q: nat, bank: nat)
    requires |d.banks| > 0 && q < |img|
  {
    match OperandBank(d, l)
    case Some(k) => RunSelects(d, img[q..|img| - 1], bank) == k
    case None => bank == b
  }

  datatype Ghost = Ghost(i: nat, b: nat, frame: Frame, sites: seq<Site>)

  ghost predicate SiteOk(t: Text, tracks: seq<Track>, start: seq<nat>, site: Site, ret: nat)
    requires |t.d.banks| > 0 && |start| == |t.lines| + 1 == |tracks|
  {
    && site.i < |t.lines| && t.lines[site.i].Call? && ret == start[site.i + 1]
    && Placed(t, site.frame, site.i, site.b) && Matches(tracks[site.i], t.lines[site.i], site.b)
  }

  /** Every pending call is sound, and is told about by the frame above it. */
  ghost predicate Stacked(t: Text, tracks: seq<Track>, start: seq<nat>, sites: seq<Site>, stack: seq<nat>, top: Frame)
    requires |t.d.banks| > 0 && |start| == |t.lines| + 1 == |tracks|
    decreases |sites|
  {
    && |sites| == |stack|
    && (sites != [] ==>
          var n := |sites| - 1;
          && SiteOk(t, tracks, start, sites[n], stack[n]) && Above(t, sites[n], top)
          && Stacked(t, tracks, start, sites[..n], stack[..n], sites[n].frame))
  }

  ghost predicate Inv(t: Text, tracks: seq<Track>, start: seq<nat>, out: seq<Line>, s: Cpu, g: Ghost)
    requires |t.d.banks| > 0 && |start| == |t.lines| + 1 == |tracks|
  {
    && g.i < |t.lines| && start[g.i] <= s.pc < start[g.i + 1] <= |out|
    && Placed(t, g.frame, g.i, g.b) && Matches(tracks[g.i], t.lines[g.i], g.b)
    && BankAt(t.d, t.lines[g.i], g.b, Image(start, out, g.i), s.pc - start[g.i], s.bank)
    && Stacked(t, tracks, start, g.sites, s.stack, g.frame)
  }

  /** Halted past the end, or inside the text with the invariant. */
  ghost predicate Safe(t: Text, tracks: seq<Track>, start: seq<nat>, out: seq<Line>, s: Cpu)
    requires |t.d.banks| > 0 && |start| == |t.lines| + 1 == |tracks|
  {
    s.pc >= |out| || exists g :: Inv(t, tracks, start, out, s, g)
  }

  /** Landing at the start of line `i` with a bank the scan allows for. */
  lemma Land(t: Text, labels: Labels, tracks: seq<Track>, start: seq<nat>, out: seq<Line>,
             s: Cpu, i: nat, f: Frame, sites: seq<Site>)
    requires |t.d.banks| > 0 && |start| == |t.lines| + 1 == |tracks| && Passed(t, labels, tracks, start, out)
    requires i <= |t.lines| && s.pc == start[i]
    requires i < |t.lines| ==>
               && Placed(t, f, i, s.bank) && Matches(tracks[i], t.lines[i], s.bank)
               && Stacked(t, tracks, start, sites, s.stack, f)
    ensures Safe(t, tracks, start, out, s)
  {
    hide Passed, Placed, Stacked, TrackStep, ImageOk, BankAt, Matches, IsSelect, Rewritten;
    if i < |t.lines| {
      LineAtIs(t, labels, tracks, start, out, i);
      BankAtStart(t, tracks, i, f, s.bank, Image(start, out, i));
      assert Inv(t, tracks, start, out, s, Ghost(i, s.bank, f, sites));
    } else {
      LastStart(t, labels, tracks, start, out);
    }
  }

  lemma BankAtStart(t: Text, tracks: seq<Track>, i: nat, f: Frame, b: nat, img: seq<Line>)
    requires |t.d.banks| > 0 && i < |t.lines| && i < |tracks|
    requires Placed(t, f, i, b) && Matches(tracks[i], t.lines[i], b)
    requires ImageOk(t.d, t.lines[i], tracks[i], img)
    ensures BankAt(t.d, t.lines[i], b, img, 0, b)
  {
    hide RunSelects;
    assert img[0..|img| - 1] == img[..|img| - 1];
    assert t.lines[i].Label? ==> OperandBank(t.d, t.lines[i]).None?;
  }

  // ---- Every step keeps the invariant ------------------------------------------------

  lemma StackedAbove(t: Text, tracks: seq<Track>, start: seq<nat>, sites: seq<Site>, stack: seq<nat>,
                     f: Frame, f': Frame)
    requires |t.d.banks| > 0 && |start| == |t.lines| + 1 == |tracks|
    requires Stacked(t, tracks, start, sites, stack, f)
    requires forall site :: Above(t, site, f) ==> Above(t, site, f')
    ensures Stacked(t, tracks, start, sites, stack, f')
  {
    hide Above, SiteOk;
  }

  /** Inside the selects of a line. */
  lemma StepSelect(t: Text, labels: Labels, tracks: seq<Track>, start: seq<nat>, out: seq<Line>,
                   s: Cpu, s': Cpu, g: Ghost)
    requires |t.d.banks| > 0 && |start| == |t.lines| + 1 == |tracks| && Passed(t, labels, tracks, start, out)
    requires Inv(t, tracks, start, out, s, g) && s.pc + 1 < start[g.i + 1] && Step(t.d, out, s, s')
    ensures Inv(t, tracks, start, out, s', g)
  {
    hide Passed, Placed, Stacked, Matches, TrackStep, ImageOk, Rewritten, OperandBank;
    LineAtIs(t, labels, tracks, start, out, g.i);
    var img, q := Image(start, out, g.i), s.pc - start[g.i];
    assert IsSelect(out[s.pc]) && img[q] == out[s.pc];
    assert img[q..|img| - 1][1..] == img[q + 1..|img| - 1];
    assert s'.bank == Apply(t.d, out[s.pc], s.bank);
  }

  /** At the line itself the bank is the one its operand needs. */
  lemma AtHome(t: Text, labels: Labels, tracks: seq<Track>, start: seq<nat>, out: seq<Line>, s: Cpu, g: Ghost)
    requires |t.d.banks| > 0 && |start| == |t.lines| + 1 == |tracks| && Passed(t, labels, tracks, start, out)
    requires Inv(t, tracks, start, out, s, g) && s.pc + 1 == start[g.i + 1]
    ensures out[s.pc] == Rewritten(t.d, t.lines[g.i]) && s.bank == Pinned(t.d, t.lines[g.i], g.b)
  {
    hide Passed, Placed, Stacked, Matches, TrackStep, ImageOk, Rewritten, OperandBank;
    LineAtIs(t, labels, tracks, start, out, g.i);
    var img, q := Image(start, out, g.i), s.pc - start[g.i];
    assert img[q..|img| - 1] == [];
  }

  lemma StepGoto(t: Text, labels: Labels, tracks: seq<Track>, start: seq<nat>, out: seq<Line>,
                 s: Cpu, s': Cpu, g: Ghost)
    requires |t.d.banks| > 0 && |start| == |t.lines| + 1 == |tracks| && Passed(t, labels, tracks, start, out)
    requires Inv(t, tracks, start, out, s, g) && s.pc + 1 == start[g.i + 1] && Step(t.d, out, s, s')
    requires t.lines[g.i].Goto?
    ensures Safe(t, tracks, start, out, s')
  {
    hide Passed, BankAt, ImageOk, LineLegal, Stacked, Placed, TrackStep, Legal, Suitable, LabelsSound,
         Stays, Inv, SkipsClear, LabelPos;
    InvParts(t, tracks, start, out, s, g);
    var i, x := g.i, t.lines[g.i].target;
    AtHome(t, labels, tracks, start, out, s, g);
    PassedIs(t, labels, tracks, start, out, i);
    OutLabel(t, labels, tracks, start, out, x);
    PlacedBank(t, g.frame, i, g.b);
    PassOn(t, labels, tracks, start, out, s', g.frame, i, g.b, LabelPos(t.lines, x).value, 0, g.sites);
  }

  lemma StepCall(t: Text, labels: Labels, tracks: seq<Track>, start: seq<nat>, out: seq<Line>,
                 s: Cpu, s': Cpu, g: Ghost)
    requires |t.d.banks| > 0 && |start| == |t.lines| + 1 == |tracks| && Passed(t, labels, tracks, start, out)
    requires Inv(t, tracks, start, out, s, g) && s.pc + 1 == start[g.i + 1] && Step(t.d, out, s, s')
    requires t.lines[g.i].Call?
    ensures Safe(t, tracks, start, out, s')
  {
    hide Passed, BankAt, ImageOk, LineLegal, Placed, TrackStep, Legal, Suitable, LabelsSound,
         Inv, SkipsClear, LabelPos, IsOpener, Shows;
    InvParts(t, tracks, start, out, s, g);
    var i, x := g.i, t.lines[g.i].target;
    AtHome(t, labels, tracks, start, out, s, g);
    PassedIs(t, labels, tracks, start, out, i);
    OutLabel(t, labels, tracks, start, out, x);
    PlacedBank(t, g.frame, i, g.b);
    var p := LabelPos(t.lines, x).value;
    CalledOpens(t.lines, i, p);
    var f := Enter(t, p, g.b);
    var site := Site(i, g.b, g.frame);
    var sites := g.sites + [site];
    assert sites[..|g.sites|] == g.sites && s'.stack[..|g.sites|] == s.stack;
    assert Above(t, site, f);
    assert Stacked(t, tracks, start, sites, s'.stack, f);
    Land(t, labels, tracks, start, out, s', p, f, sites);
  }

  lemma CalledOpens(ls: seq<Line>, i: nat, p: nat)
    requires i < |ls| && ls[i].Call? && p < |ls| && ls[p] == Label(ls[i].target)
    ensures IsOpener(ls, p)
  {
    assert ls[i] == Call(ls[p].name);
  }

  lemma StepReturn(t: Text, labels: Labels, tracks: seq<Track>, start: seq<nat>, out: seq<Line>,
                   s: Cpu, s': Cpu, g: Ghost)
    requires |t.d.banks| > 0 && |start| == |t.lines| + 1 == |tracks| && Passed(t, labels, tracks, start, out)
      && !Bank0Only(t)
    requires Inv(t, tracks, start, out, s, g) && s.pc + 1 == start[g.i + 1] && Step(t.d, out, s, s')
    requires t.lines[g.i].Return?
    ensures Safe(t, tracks, start, out, s')
  {
    hide Passed, Bank0Only, BankAt, ImageOk, LineLegal, Placed, TrackStep, Legal, Suitable, LabelsSound,
         Inv, SkipsClear, IsOpener, Shows, Above, Matches, Stays, LineSuitable;
    InvParts(t, tracks, start, out, s, g);
    AtHome(t, labels, tracks, start, out, s, g);
    PlacedBank(t, g.frame, g.i, g.b);
    var n := |g.sites| - 1;
    var site := g.sites[n];
    var k := Returns(t, site, g.frame, g.i, g.b);
    LineAtIs(t, labels, tracks, start, out, site.i);
    PassedIs(t, labels, tracks, start, out, site.i);
    CallMatches(t, labels, site, tracks[site.i], tracks[site.i + 1], g.b, k);
    if site.i + 1 < |t.lines| { StaysNext(t.lines, site.i); }
    CallNext(t, site, g.b, k);
    MatchesKnown(t, tracks, site.i + 1, g.b);
    PassOn(t, labels, tracks, start, out, s', site.frame, site.i, site.b, site.i + 1, k, g.sites[..n]);
  }

  /** A return with bank `b` is one of the call's possible ends. */
  lemma Returns(t: Text, site: Site, f: Frame, i: nat, b: nat) returns (n: nat)
    requires |t.d.banks| > 0 && i < |t.lines| && t.lines[i].Return? && Placed(t, f, i, b) && Above(t, site, f)
    ensures CallEnds(t, t.lines[site.i].target, site.b, b, n)
  {
    var p := RegionOf(t.lines, t.lines[site.i].target).value;
    var hi := RegionEnd(t.lines, p);
    hide IsOpener;
    if Shows(t, p, site.b, Left) {
      hide Sees;
      n :| Sees(t, p, hi, p, site.b, Left, n);
    } else {
      assert Sees(t, p, hi, i, b, Returned(b), 1);
      assert Shows(t, p, site.b, Returned(b));
      n :| Sees(t, p, hi, p, site.b, Returned(b), n);
    }
  }

  lemma CallNext(t: Text, site: Site, b: nat, n: nat)
    requires |t.d.banks| > 0 && site.i < |t.lines| && t.lines[site.i].Call? && b < 32
    requires Placed(t, site.frame, site.i, site.b)
    requires CallEnds(t, t.lines[site.i].target, site.b, b, n)
    ensures site.frame.In? ==> Next(t, RegionEnd(t.lines, site.frame.lo), site.i, site.b, site.i + 1, b, n)
  {
    hide CallEnds, Follows, IsOpener;
  }

  lemma CallMatches(t: Text, labels: Labels, site: Site, tr: Track, tr': Track, b: nat, n: nat)
    requires |t.d.banks| > 0 && LabelsSound(t, labels) && !Bank0Only(t)
    requires site.i < |t.lines| && t.lines[site.i].Call? && Matches(tr, t.lines[site.i], site.b)
    requires Placed(t, site.frame, site.i, site.b) && b < 32
    requires TrackStep(t, labels, t.lines[site.i], tr, tr')
    requires CallEnds(t, t.lines[site.i].target, site.b, b, n)
    ensures tr'.known ==> tr'.cur == b
  {
    hide CallEnds, Follows, IsOpener, Bank0Only, LabelsSound;
    var x := t.lines[site.i].target;
    assert CallTrack(t, x, tr, tr');
    var e: set<nat> :| e <= ALL_BANKS && CallOk(t, x, EntryOf(tr), e) && tr' == AfterCall(tr, e);
    assert site.b in EntryOf(tr) && b in ALL_BANKS;
    assert b in e;
  }

  lemma MatchesKnown(t: Text, tracks: seq<Track>, i: nat, b: nat)
    requires i < |tracks| && (tracks[i].known ==> tracks[i].cur == b)
    ensures i < |t.lines| ==> Matches(tracks[i], t.lines[i], b)
  {
  }

  /** Passing to the line behind, as any line but a jump, a call or a return does. */
  lemma StepPlain(t: Text, labels: Labels, tracks: seq<Track>, start: seq<nat>, out: seq<Line>,
                  s: Cpu, s': Cpu, g: Ghost)
    requires |t.d.banks| > 0 && |start| == |t.lines| + 1 == |tracks| && Passed(t, labels, tracks, start, out)
      && !Bank0Only(t)
    requires Inv(t, tracks, start, out, s, g) && s.pc + 1 == start[g.i + 1] && Step(t.d, out, s, s')
    requires var l := t.lines[g.i]; !l.Return? && !l.Goto? && !l.Call? && !l.Skip?
    requires RawSelectsOk(t, tracks)
    ensures Safe(t, tracks, start, out, s')
  {
    var i, l := g.i, t.lines[g.i];
    hide Passed, Bank0Only, BankAt, ImageOk, LineLegal, BankStep, BankAfter, Rewritten, Pinned, Stacked, Placed,
         Matches, TrackStep, Legal, Suitable, LabelsSound, Next, Stays, LineSuitable, Step, Inv, SkipsClear;
    InvParts(t, tracks, start, out, s, g);
    AtHome(t, labels, tracks, start, out, s, g);
    NotRaw(t, labels, tracks, start, out, i);
    StepsOn(t.d, out, l, s, s');
    assert g.b < BankLimit(t.d) by { PlacedBank(t, g.frame, i, g.b); }
    BankStepAfter(t.d, l, tracks[i], g.b, s'.bank);
    NextOf(t, g.frame, i, g.b, s'.bank);
    PlainMatches(t, labels, tracks, start, out, g.frame, i, g.b, s'.bank);
    if i + 1 < |t.lines| { StaysNext(t.lines, i); }
    PassOn(t, labels, tracks, start, out, s', g.frame, i, g.b, i + 1, 0, g.sites);
  }

  lemma NotRaw(t: Text, labels: Labels, tracks: seq<Track>, start: seq<nat>, out: seq<Line>, i: nat)
    requires Passed(t, labels, tracks, start, out) && i < |t.lines|
    requires |tracks| == |t.lines| + 1 && RawSelectsOk(t, tracks)
    ensures |tracks| == |t.lines| + 1 && RawOk(t.d, t.lines[i], tracks[i])
    ensures !t.lines[i].MovPcl? && LineLegal(t.d, t.lines[i])
  {
    hide LabelsSound, LineAt, SkipsClear, RawOk;
    PassedIs(t, labels, tracks, start, out, i);
  }

  lemma InvParts(t: Text, tracks: seq<Track>, start: seq<nat>, out: seq<Line>, s: Cpu, g: Ghost)
    requires |t.d.banks| > 0 && |start| == |t.lines| + 1 == |tracks| && Inv(t, tracks, start, out, s, g)
    ensures g.i < |t.lines| && start[g.i] <= s.pc < start[g.i + 1] <= |out|
    ensures Placed(t, g.frame, g.i, g.b) && Matches(tracks[g.i], t.lines[g.i], g.b)
    ensures Stacked(t, tracks, start, g.sites, s.stack, g.frame)
  {
    hide Placed, Matches, Stacked, BankAt;
  }

  lemma PlacedBank(t: Text, f: Frame, i: nat, b: nat)
    requires |t.d.banks| > 0 && Placed(t, f, i, b)
    ensures b < BankLimit(t.d) <= 32
  {
  }

  lemma PlainMatches(t: Text, labels: Labels, tracks: seq<Track>, start: seq<nat>, out: seq<Line>,
                     f: Frame, i: nat, b: nat, b': nat)
    requires |t.d.banks| > 0 && |start| == |t.lines| + 1 == |tracks| && Passed(t, labels, tracks, start, out)
      && !Bank0Only(t) && i < |t.lines|
    requires Placed(t, f, i, b) && Matches(tracks[i], t.lines[i], b)
    requires var l := t.lines[i]; !l.Return? && !l.Goto? && !l.Call? && !l.Skip?
                                  && (l.InlineAsm? || BankAfter(t.d, l, b, b')) && (l.Label? ==> b' == b)
    ensures tracks[i + 1].known ==> tracks[i + 1].cur == b'
  {
    hide Passed, Bank0Only, ImageOk, LineLegal, BankAfter, Linear, Legal, Suitable, LabelsSound, Follows,
         Shows, IsOpener;
    var l := t.lines[i];
    LineAtIs(t, labels, tracks, start, out, i);
    PassedIs(t, labels, tracks, start, out, i);
    if l.Label? {
      if f.In? { LabelShown(t, f.lo, f.b0, i, b); }
      LabelMatches(t, labels, f, i, i, b, tracks[i], tracks[i + 1]);
    } else if !l.InlineAsm? {
      LinearMatches(t.d, l, tracks[i], b, b');
    }
  }

  /** Control passes from line `i` of frame `f` to the start of line `i'`. */
  lemma PassOn(t: Text, labels: Labels, tracks: seq<Track>, start: seq<nat>, out: seq<Line>,
               s: Cpu, f: Frame, i: nat, b: nat, i': nat, k: nat, sites: seq<Site>)
    requires |t.d.banks| > 0 && |start| == |t.lines| + 1 == |tracks| && Passed(t, labels, tracks, start, out)
    requires i < |t.lines| && i' <= |t.lines| && s.pc == start[i'] && s.bank < BankLimit(t.d)
    requires Placed(t, f, i, b) && Stacked(t, tracks, start, sites, s.stack, f)
    requires i' < |t.lines| ==>
               && Stays(t.lines, i, i') && Matches(tracks[i'], t.lines[i'], s.bank)
               && (f.In? ==> Next(t, RegionEnd(t.lines, f.lo), i, b, i', s.bank, k))
    ensures Safe(t, tracks, start, out, s)
  {
    hide Passed, Placed, Stacked, Above, Next, Stays, Matches, Safe;
    PassedIs(t, labels, tracks, start, out, i);
    LineAtIs(t, labels, tracks, start, out, i);
    if i' < |t.lines| {
      var f' := Arrive(t, f, i, b, i', s.bank, k);
      StackedAbove(t, tracks, start, sites, s.stack, f, f');
      Land(t, labels, tracks, start, out, s, i', f', sites);
    } else {
      Land(t, labels, tracks, start, out, s, i', f, sites);
    }
  }

  lemma StepsOn(d: Device, out: seq<Line>, l: Line, s: Cpu, s': Cpu)
    requires |d.banks| > 0 && s.pc < |out| && out[s.pc] == Rewritten(d, l) && Step(d, out, s, s')
    requires !l.Return? && !l.Goto? && !l.Call? && !l.Skip? && !l.MovPcl?
    ensures s'.pc == s.pc + 1 && s'.stack == s.stack && BankStep(d, Rewritten(d, l), s.bank, s'.bank)
  {
  }

  lemma NextOf(t: Text, f: Frame, i: nat, b: nat, b': nat)
    requires |t.d.banks| > 0 && i < |t.lines| && Placed(t, f, i, b) && b' < BankLimit(t.d)
    requires var l := t.lines[i]; !l.Return? && !l.Goto? && !l.Call? && !l.Skip?
                                  && (l.InlineAsm? || BankAfter(t.d, l, b, b'))
    ensures f.In? ==> Next(t, RegionEnd(t.lines, f.lo), i, b, i + 1, b', 0)
  {
    hide Follows, IsOpener, BankAfter;
  }

  lemma BankStepAfter(d: Device, l: Line, tr: Track, b: nat, b': nat)
    requires |d.banks| > 0 && b < BankLimit(d) && LineLegal(d, l) && RawOk(d, l, tr) && Matches(tr, l, b)
    requires !l.Return? && !l.Goto? && !l.Call? && !l.Skip? && !l.MovPcl?
    requires BankStep(d, Rewritten(d, l), Pinned(d, l, b), b')
    ensures b' < BankLimit(d) && (l.InlineAsm? || BankAfter(d, l, b, b'))
    ensures l.Label? ==> b' == b
  {
    if l.RpBit? && !d.core.Pic14e? { RawSelectExact(d, l.mask, l.on, b); }
  }

  /** A skip lands on its successor or behind it; the scan walks the same lines in order. */
  lemma StepSkip(t: Text, labels: Labels, tracks: seq<Track>, start: seq<nat>, out: seq<Line>,
                 s: Cpu, s': Cpu, g: Ghost)
    requires |t.d.banks| > 0 && |start| == |t.lines| + 1 == |tracks| && Passed(t, labels, tracks, start, out)
    requires !Bank0Only(t)
    requires Inv(t, tracks, start, out, s, g) && s.pc + 1 == start[g.i + 1] && Step(t.d, out, s, s')
    requires t.lines[g.i].Skip?
    ensures Safe(t, tracks, start, out, s')
  {
    hide Passed, Bank0Only, BankAt, ImageOk, LineLegal, Placed, TrackStep, Legal, Suitable, LabelsSound,
         Inv, SkipsClear, IsOpener, Matches, Stays, Pinned, AfterLabels, SpanEnd, Next, Stacked;
    InvParts(t, tracks, start, out, s, g);
    var i, f, b := g.i, g.frame, g.b;
    var j := Successor(t.lines, i);
    AtHome(t, labels, tracks, start, out, s, g);
    PassedIs(t, labels, tracks, start, out, i);
    PlacedBank(t, f, i, b);
    SuccessorIs(t, i);
    OutAfter(t, labels, tracks, start, out, i + 1, j);
    PinnedBank(t, i, b);
    LineAtIs(t, labels, tracks, start, out, j);
    SuccessorMatches(t, labels, tracks, start, out, f, i, b, j);
    BehindMatches(t, labels, tracks, start, out, i, j);
    SkipNext(t, f, i, b, j);
    if s'.pc == start[j] {
      MatchesKnown(t, tracks, j, s'.bank);
      StaysInSpan(t.lines, i, j);
      PassOn(t, labels, tracks, start, out, s', f, i, b, j, 0, g.sites);
    } else {
      assert s'.pc == start[j + 1];
      MatchesKnown(t, tracks, j + 1, s'.bank);
      if j + 1 < |t.lines| { StaysInSpan(t.lines, i, j + 1); }
      PassOn(t, labels, tracks, start, out, s', f, i, b, j + 1, 0, g.sites);
    }
  }

  lemma SuccessorIs(t: Text, i: nat)
    requires i < |t.lines| && t.lines[i].Skip? && LineSuitable(t, i)
    ensures var j := Successor(t.lines, i);
            && i < j < |t.lines| && j < SpanEnd(t.lines, i) && !t.lines[j].Label? && GuardOk(t.lines, i)
            && forall k :: i + 1 <= k < j ==> t.lines[k].Label?
  {
  }

  lemma PinnedBank(t: Text, i: nat, b: nat)
    requires Legal(t) && i < |t.lines| && b < BankLimit(t.d)
    ensures Pinned(t.d, t.lines[i], b) < BankLimit(t.d)
  {
    assert LineLegal(t.d, t.lines[i]);
  }

  lemma {:induction false} AfterLabelsTo(ls: seq<Line>, i: nat, hi: nat)
    requires i <= hi <= |ls| && AfterLabels(ls, i, |ls|) < hi
    ensures AfterLabels(ls, i, hi) == AfterLabels(ls, i, |ls|)
    decreases hi - i
  {
    if i < hi && ls[i].Label? {
      AfterLabelsTo(ls, i + 1, hi);
    }
  }

  /** In its region the analysis finds the same successor. */
  lemma RegionSuccessor(t: Text, f: Frame, i: nat, b: nat)
    requires |t.d.banks| > 0 && i < |t.lines| && t.lines[i].Skip? && LineSuitable(t, i) && Placed(t, f, i, b)
    ensures f.In? ==> AfterLabels(t.lines, i + 1, RegionEnd(t.lines, f.lo)) == Successor(t.lines, i)
    ensures f.Stub? ==> Successor(t.lines, i) < FirstOpener(t.lines)
  {
    hide IsOpener, Follows;
    if f.In? {
      OpenerUnique(t.lines, f.lo, i);
      AfterLabelsTo(t.lines, i + 1, RegionEnd(t.lines, f.lo));
    }
  }

  lemma SkipNext(t: Text, f: Frame, i: nat, b: nat, j: nat)
    requires |t.d.banks| > 0 && i < |t.lines| && t.lines[i].Skip? && LineSuitable(t, i) && Placed(t, f, i, b)
    requires j == Successor(t.lines, i)
    ensures f.In? ==> Next(t, RegionEnd(t.lines, f.lo), i, b, j, Pinned(t.d, t.lines[i], b), 0)
    ensures f.In? ==> Next(t, RegionEnd(t.lines, f.lo), i, b, j + 1, Pinned(t.d, t.lines[i], b), 0)
  {
    hide IsOpener, Follows, Pinned, LineSuitable, Successor;
    RegionSuccessor(t, f, i, b);
  }

  lemma SuccessorMatches(t: Text, labels: Labels, tracks: seq<Track>, start: seq<nat>, out: seq<Line>,
                         f: Frame, i: nat, b: nat, j: nat)
    requires |t.d.banks| > 0 && |start| == |t.lines| + 1 == |tracks| && Passed(t, labels, tracks, start, out)
    requires !Bank0Only(t) && i < |t.lines| && t.lines[i].Skip? && LineSuitable(t, i) && j == Successor(t.lines, i)
    requires Placed(t, f, i, b) && Matches(tracks[i], t.lines[i], b) && i < j < |t.lines|
    ensures tracks[j].known ==> tracks[j].cur == Pinned(t.d, t.lines[i], b)
  {
    hide Passed, Bank0Only, ImageOk, LineLegal, Linear, Legal, Suitable, LabelsSound, Shows, IsOpener, Pinned,
         LineSuitable, SkipsClear, Follows;
    RegionSuccessor(t, f, i, b);
    PassedIs(t, labels, tracks, start, out, i);
    SuccessorIs(t, i);
    LineAtIs(t, labels, tracks, start, out, j - 1);
    if j == i + 1 {
      SkipAfter(t.d, t.lines[i], b);
      LinearMatches(t.d, t.lines[i], tracks[i], b, Pinned(t.d, t.lines[i], b));
    } else {
      var b' := Pinned(t.d, t.lines[i], b);
      if f.In? { SkipShown(t, f.lo, f.b0, i, b, j - 1); }
      LabelMatches(t, labels, f, i, j - 1, b', tracks[j - 1], tracks[j]);
    }
  }

  lemma SkipAfter(d: Device, l: Line, b: nat)
    requires |d.banks| > 0 && l.Skip?
    ensures BankAfter(d, l, b, Pinned(d, l, b))
  {
  }

  /** With no select under the skip, the guarded line leaves the tracked bank as it was. */
  lemma BehindMatches(t: Text, labels: Labels, tracks: seq<Track>, start: seq<nat>, out: seq<Line>, i: nat, j: nat)
    requires |t.d.banks| > 0 && |start| == |t.lines| + 1 == |tracks| && Passed(t, labels, tracks, start, out)
    requires i < |t.lines| && t.lines[i].Skip? && j == Successor(t.lines, i) < |t.lines| && GuardOk(t.lines, i)
    ensures tracks[j + 1] == tracks[j] && start[j + 1] == start[j] + 1
  {
    hide Passed, LineLegal, Legal, Suitable, LabelsSound, SpanEnd, Successor;
    PassedIs(t, labels, tracks, start, out, i);
    LineAtIs(t, labels, tracks, start, out, j);
    assert start[j + 1] == start[j] + 1;
    var img := Image(start, out, j);
    assert img[..|img| - 1] == [];
  }

  lemma StepSafe(t: Text, labels: Labels, tracks: seq<Track>, start: seq<nat>, out: seq<Line>, s: Cpu, s': Cpu)
    requires |t.d.banks| > 0 && |start| == |t.lines| + 1 == |tracks| && Passed(t, labels, tracks, start, out)
    requires !Bank0Only(t) && Safe(t, tracks, start, out, s) && Step(t.d, out, s, s')
    requires RawSelectsOk(t, tracks)
    ensures Safe(t, tracks, start, out, s')
  {
    hide Passed, Bank0Only, Inv;
    var g :| Inv(t, tracks, start, out, s, g);
    InvParts(t, tracks, start, out, s, g);
    hide Step, Safe, Placed, Matches, Stacked;
    if s.pc + 1 < start[g.i + 1] {
      StepSelect(t, labels, tracks, start, out, s, s', g);
      SafeBy(t, tracks, start, out, s', g);
    } else {
      match t.lines[g.i]
      case Return => StepReturn(t, labels, tracks, start, out, s, s', g);
      case Goto(_) => StepGoto(t, labels, tracks, start, out, s, s', g);
      case Call(_) => StepCall(t, labels, tracks, start, out, s, s', g);
      case Skip(_) => StepSkip(t, labels, tracks, start, out, s, s', g);
      case _ => StepPlain(t, labels, tracks, start, out, s, s', g);
    }
  }

  lemma SafeBy(t: Text, tracks: seq<Track>, start: seq<nat>, out: seq<Line>, s: Cpu, g: Ghost)
    requires |t.d.banks| > 0 && |start| == |t.lines| + 1 == |tracks| && Inv(t, tracks, start, out, s, g)
    ensures Safe(t, tracks, start, out, s)
  {
  }
}
