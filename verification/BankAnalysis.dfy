/** Which banks can be selected when a function returns and when a label is reached: a
    walk over sets of banks, function by function, remembered per entry set. A set of states
    closed under the walk's steps covers every run of the region. */
module BankAnalysis {
  import opened Wrappers
  import opened Devices
  import opened Cfg
  import opened BankText

  type Labels = map<Name, set<nat>>
  type State = (nat, set<nat>)

  // ---- Claims about a region ---------------------------------------------------------

  /** Every call of `x` entered with a bank of `entry` comes back with a bank of `exits`. */
  ghost predicate CallOk(t: Text, x: Name, entry: set<nat>, exits: set<nat>)
    requires |t.d.banks| > 0
  {
    forall b: nat, m: nat, n: nat ::
      b in entry && m in ALL_BANKS && CallEnds(t, x, b, m, n) ==> m in exits
  }

  ghost predicate LabelHas(labels: Labels, l: Line, b: nat) {
    l.Label? && l.name in labels && b in labels[l.name]
  }

  /** `o` is allowed for by the recorded exits and label banks. */
  ghost predicate Covered(t: Text, o: Obs, exits: set<nat>, labels: Labels) {
    match o
    case Returned(m) => m in exits
    case Left => ALL_BANKS <= exits
    case AtLabel(p, b) => p < |t.lines| && LabelHas(labels, t.lines[p], b)
  }

  /** Everything a run of the region at `lo` entered with a bank of `entry` can show. */
  ghost predicate RegionCovered(t: Text, lo: nat, entry: set<nat>, exits: set<nat>, labels: Labels)
    requires |t.d.banks| > 0 && lo < |t.lines|
  {
    forall b: nat, o: Obs, n: nat ::
      b in entry && Sees(t, lo, RegionEnd(t.lines, lo), lo, b, o, n) ==> Covered(t, o, exits, labels)
  }

  /** Every label passed by a run of the region at `lo` has its bank recorded. */
  ghost predicate LabelsCovered(t: Text, lo: nat, entry: set<nat>, labels: Labels)
    requires |t.d.banks| > 0 && lo < |t.lines|
  {
    forall b: nat, p: nat, m: nat, n: nat ::
      b in entry && Sees(t, lo, RegionEnd(t.lines, lo), lo, b, AtLabel(p, m), n)
      ==> p < |t.lines| && LabelHas(labels, t.lines[p], m)
  }

  // ---- Programs that stay in bank 0 --------------------------------------------------

  predicate LineKeepsBank0(d: Device, l: Line)
    requires |d.banks| > 0
  {
    && !l.InlineAsm?
    && Effect(d, l).None?
    && (OperandBank(d, l).Some? ==> OperandBank(d, l).value == 0)
  }

  predicate Bank0Only(t: Text)
    requires |t.d.banks| > 0
  {
    forall i :: 0 <= i < |t.lines| ==> LineKeepsBank0(t.d, t.lines[i])
  }

  /** A set the analysis can compute: unknown, or real banks of the part, and in a
      bank-0-only program never one that rules bank 0 out. */
  ghost predicate Plausible(t: Text, s: set<nat>)
    requires |t.d.banks| > 0
  {
    && (s == ALL_BANKS || s <= UpTo(BankLimit(t.d)))
    && (Bank0Only(t) && s != {} ==> 0 in s)
  }

  // ---- One step over sets of banks ---------------------------------------------------

  /** The banks possible after a line that neither calls nor jumps. */
  function After(d: Device, l: Line, s: set<nat>): set<nat>
    requires |d.banks| > 0
  {
    match Effect(d, l)
    case Some(Some(k)) => {k}
    case Some(None) => ALL_BANKS
    case None =>
      match OperandBank(d, l)
      case Some(k) => {k}
      case None => s
  }

  ghost predicate CallStep(t: Text, x: Name, i: nat, s: set<nat>, seen: set<State>)
    requires |t.d.banks| > 0
  {
    exists e: set<nat> :: CallOk(t, x, s, e) && (i + 1, e) in seen
  }

  /** All that line `i` can do when entered with a bank of `s` is in `seen`, `exits` and `labels`. */
  ghost predicate StepOk(t: Text, lo: nat, hi: nat, i: nat, s: set<nat>, seen: set<State>,
                         exits: set<nat>, labels: Labels)
    requires |t.d.banks| > 0 && lo <= hi <= |t.lines|
  {
    if !(lo <= i < hi) then ALL_BANKS <= exits
    else
      match t.lines[i]
      case Label(_) => (forall b <- s :: LabelHas(labels, t.lines[i], b)) && (i + 1, s) in seen
      case Return => s <= exits
      case Goto(x) =>
        var p := LabelPos(t.lines, x);
        if p.Some? && lo <= p.value < hi then (p.value, s) in seen else ALL_BANKS <= exits
      case Call(x) => CallStep(t, x, i, s, seen)
      case Skip(_) =>
        var s' := After(t.d, t.lines[i], s);
        var j := AfterLabels(t.lines, i + 1, hi);
        && (forall p, b :: i < p < j && b in s' ==> LabelHas(labels, t.lines[p], b))
        && (j, s') in seen && (j + 1, s') in seen
      case InlineAsm => (i + 1, ALL_BANKS) in seen
      case l => (i + 1, After(t.d, l, s)) in seen
  }

  ghost predicate LabelsGrow(was: Labels, now: Labels) {
    forall n :: n in was ==> n in now && was[n] <= now[n]
  }

  lemma StepOkMore(t: Text, lo: nat, hi: nat, i: nat, s: set<nat>, seen: set<State>, exits: set<nat>,
                   labels: Labels, seen': set<State>, exits': set<nat>, labels': Labels)
    requires |t.d.banks| > 0 && lo <= hi <= |t.lines|
    requires StepOk(t, lo, hi, i, s, seen, exits, labels)
    requires seen <= seen' && exits <= exits' && LabelsGrow(labels, labels')
    ensures StepOk(t, lo, hi, i, s, seen', exits', labels')
  {
  }

  /** Every state of `seen` is stepped within `reach`. */
  ghost predicate Stepped(t: Text, lo: nat, hi: nat, seen: set<State>, reach: set<State>,
                          exits: set<nat>, labels: Labels)
    requires |t.d.banks| > 0 && lo <= hi <= |t.lines|
  {
    forall v :: v in seen ==> StepOk(t, lo, hi, v.0, v.1, reach, exits, labels)
  }

  // ---- A closed set of states covers every run ---------------------------------------

  lemma HereCovered(t: Text, lo: nat, hi: nat, i: nat, s: set<nat>, seen: set<State>,
                    exits: set<nat>, labels: Labels, b: nat, o: Obs)
    requires |t.d.banks| > 0 && lo <= hi <= |t.lines|
    requires StepOk(t, lo, hi, i, s, seen, exits, labels) && b in s
    requires SeenHere(t, lo, hi, i, b, o)
    ensures Covered(t, o, exits, labels)
  {
  }

  lemma NextCovered(t: Text, lo: nat, hi: nat, i: nat, s: set<nat>, seen: set<State>,
                    exits: set<nat>, labels: Labels, b: nat, i': nat, b': nat, n: nat)
      returns (s': set<nat>)
    requires |t.d.banks| > 0 && lo <= i < hi <= |t.lines|
    requires StepOk(t, lo, hi, i, s, seen, exits, labels) && b in s
    requires Next(t, hi, i, b, i', b', n)
    ensures b' in s'
    ensures (i', s') in seen || (!(lo <= i' < hi) && ALL_BANKS <= exits)
  {
    hide Effect, Pinned, BankAfter, After, OperandBank;
    var l := t.lines[i];
    if l.Goto? {
      s' := s;
    } else if l.Call? {
      s' :| CallOk(t, l.target, s, s') && (i + 1, s') in seen;
    } else if l.InlineAsm? {
      s' := ALL_BANKS;
    } else {
      AfterHas(t.d, l, s, b, b');
      s' := After(t.d, l, s);
      if l.Label? { LabelAfter(t.d, l, s); }
    }
  }

  lemma LabelAfter(d: Device, l: Line, s: set<nat>)
    requires |d.banks| > 0 && l.Label?
    ensures After(d, l, s) == s
  {
  }

  lemma AfterHas(d: Device, l: Line, s: set<nat>, b: nat, b': nat)
    requires |d.banks| > 0 && b in s
    ensures BankAfter(d, l, b, b') ==> b' in After(d, l, s)
    ensures l.Skip? && b' == Pinned(d, l, b) ==> b' in After(d, l, s)
  {
  }

  lemma {:induction false} ClosedCovers(t: Text, lo: nat, hi: nat, seen: set<State>,
                                        exits: set<nat>, labels: Labels,
                                        i: nat, s: set<nat>, b: nat, o: Obs, n: nat)
    requires |t.d.banks| > 0 && lo <= hi <= |t.lines|
    requires Stepped(t, lo, hi, seen, seen, exits, labels)
    requires (i, s) in seen && b in s && Sees(t, lo, hi, i, b, o, n)
    ensures Covered(t, o, exits, labels)
    decreases n
  {
    hide StepOk, Next, LabelHas;
    assert StepOk(t, lo, hi, i, s, seen, exits, labels) by {
      var v := (i, s);
      assert v in seen;
    }
    if SeenHere(t, lo, hi, i, b, o) {
      HereCovered(t, lo, hi, i, s, seen, exits, labels, b, o);
    } else {
      var m: nat := n - 1;
      assert SeesVia(t, lo, hi, i, b, o, m);
      var i': nat, b': nat :| Next(t, hi, i, b, i', b', m) && Sees(t, lo, hi, i', b', o, m);
      var s' := NextCovered(t, lo, hi, i, s, seen, exits, labels, b, i', b', m);
      if (i', s') in seen {
        ClosedCovers(t, lo, hi, seen, exits, labels, i', s', b', o, m);
      } else {
        assert o == Left;
      }
    }
  }

  /** A region's exits and labels, once every run of it is covered. */
  lemma CoveredCall(t: Text, x: Name, lo: nat, entry: set<nat>, exits: set<nat>, labels: Labels)
    requires |t.d.banks| > 0 && RegionOf(t.lines, x) == Some(lo)
    requires RegionCovered(t, lo, entry, exits, labels)
    ensures CallOk(t, x, entry, exits)
  {
    forall b: nat, m: nat, n: nat | b in entry && m in ALL_BANKS && CallEnds(t, x, b, m, n)
      ensures m in exits
    {
      var hi := RegionEnd(t.lines, lo);
      if Sees(t, lo, hi, lo, b, Returned(m), n) {
        assert Covered(t, Returned(m), exits, labels);
      } else {
        assert Sees(t, lo, hi, lo, b, Left, n);
        assert Covered(t, Left, exits, labels);
      }
    }
  }

  // ---- Nothing beyond the runs -------------------------------------------------------

  /** Every call can come back, whatever bank it is entered with. */
  ghost predicate Returns(t: Text)
    requires |t.d.banks| > 0
  {
    forall x: Name, b: nat :: b in ALL_BANKS ==> ComesBack(t, x, b)
  }

  ghost predicate ComesBack(t: Text, x: Name, b: nat)
    requires |t.d.banks| > 0
  {
    exists m: nat, n: nat :: m in ALL_BANKS && CallEnds(t, x, b, m, n)
  }

  /** Some call of `x` entered with a bank of `entry` comes back with bank `m`. */
  ghost predicate CallSeen(t: Text, x: Name, entry: set<nat>, m: nat)
    requires |t.d.banks| > 0
  {
    exists b: nat, n: nat :: b in entry && CallEnds(t, x, b, m, n)
  }

  /** `exits` holds only banks that a call can come back with. */
  ghost predicate CallTight(t: Text, x: Name, entry: set<nat>, exits: set<nat>)
    requires |t.d.banks| > 0
  {
    Returns(t) ==> forall m: nat :: m in exits ==> CallSeen(t, x, entry, m)
  }

  /** A run of the region at `lo`, entered with bank `b0`, shows `o`. */
  ghost predicate Shown(t: Text, lo: nat, b0: nat, o: Obs)
    requires |t.d.banks| > 0 && lo < |t.lines|
  {
    exists n: nat :: Sees(t, lo, RegionEnd(t.lines, lo), lo, b0, o, n)
  }

  /** Label `n` is passed with bank `b` by a run of its region. */
  ghost predicate LabelSeen(t: Text, n: Name, b: nat)
    requires |t.d.banks| > 0
  {
    exists lo: nat, p: nat, b0: nat :: IsOpener(t.lines, lo) && p < |t.lines| && t.lines[p] == Label(n)
      && b0 in ALL_BANKS && Shown(t, lo, b0, AtLabel(p, b))
  }

  ghost predicate LabelTight(t: Text, n: Name, s: set<nat>)
    requires |t.d.banks| > 0
  {
    Returns(t) ==> forall b: nat :: b in s ==> LabelSeen(t, n, b)
  }

  /** Running on from line `i` with bank `b` shows only what a run from the opener shows. */
  ghost predicate OnRun(t: Text, lo: nat, b0: nat, i: nat, b: nat)
    requires |t.d.banks| > 0 && lo < |t.lines|
  {
    forall o: Obs, n: nat :: Sees(t, lo, RegionEnd(t.lines, lo), i, b, o, n) ==> Shown(t, lo, b0, o)
  }

  ghost predicate OnRuns(t: Text, lo: nat, entry: set<nat>, i: nat, b: nat)
    requires |t.d.banks| > 0 && lo < |t.lines|
  {
    exists b0: nat :: b0 in entry && OnRun(t, lo, b0, i, b)
  }

  /** Every bank of the state is one that some run has there. */
  ghost predicate Live(t: Text, lo: nat, entry: set<nat>, v: State)
    requires |t.d.banks| > 0 && lo < |t.lines|
  {
    v.1 != {} && forall b: nat :: b in v.1 ==> OnRuns(t, lo, entry, v.0, b)
  }

  ghost predicate ExitShown(t: Text, lo: nat, entry: set<nat>, m: nat)
    requires |t.d.banks| > 0 && lo < |t.lines|
  {
    exists b0: nat :: b0 in entry && (Shown(t, lo, b0, Returned(m)) || Shown(t, lo, b0, Left))
  }

  ghost predicate ExitsShown(t: Text, lo: nat, entry: set<nat>, exits: set<nat>)
    requires |t.d.banks| > 0 && lo < |t.lines|
  {
    forall m: nat :: m in exits ==> ExitShown(t, lo, entry, m)
  }

  ghost predicate AllLive(t: Text, lo: nat, entry: set<nat>, work: seq<State>)
    requires |t.d.banks| > 0 && lo < |t.lines|
  {
    forall v :: v in work ==> Live(t, lo, entry, v)
  }

  lemma StartLive(t: Text, lo: nat, entry: set<nat>)
    requires |t.d.banks| > 0 && lo < |t.lines| && entry != {}
    ensures Live(t, lo, entry, (lo, entry)) && ExitsShown(t, lo, entry, {})
  {
    hide Sees;
    forall b: nat | b in entry ensures OnRuns(t, lo, entry, lo, b) {
      assert OnRun(t, lo, b, lo, b);
    }
  }

  /** What a line shows with a live bank, a run from the opener shows. */
  lemma HereShown(t: Text, lo: nat, entry: set<nat>, i: nat, b: nat, o: Obs) returns (b0: nat)
    requires |t.d.banks| > 0 && lo < |t.lines| && OnRuns(t, lo, entry, i, b)
    requires SeenHere(t, lo, RegionEnd(t.lines, lo), i, b, o)
    ensures b0 in entry && Shown(t, lo, b0, o)
  {
    b0 :| b0 in entry && OnRun(t, lo, b0, i, b);
    hide SeenHere, Shown;
    assert Sees(t, lo, RegionEnd(t.lines, lo), i, b, o, 1);
  }

  /** One more step stays on the run. */
  lemma StepOnRun(t: Text, lo: nat, entry: set<nat>, i: nat, b: nat, i': nat, b': nat, k: nat)
    requires |t.d.banks| > 0 && lo < |t.lines| && lo <= i < RegionEnd(t.lines, lo) && OnRuns(t, lo, entry, i, b)
    requires Next(t, RegionEnd(t.lines, lo), i, b, i', b', k)
    ensures OnRuns(t, lo, entry, i', b')
  {
    hide Next, Sees, Shown;
    var hi := RegionEnd(t.lines, lo);
    var b0: nat :| b0 in entry && OnRun(t, lo, b0, i, b);
    forall o: Obs, n: nat | Sees(t, lo, hi, i', b', o, n) ensures Shown(t, lo, b0, o) {
      SeesStep(t, lo, hi, i, b, i', b', o, k, n);
    }
    assert OnRun(t, lo, b0, i', b');
  }

  /** Some bank of `s` leads to line `i'` with bank `b'`. */
  ghost predicate Leads(t: Text, hi: nat, i: nat, s: set<nat>, i': nat, b': nat)
    requires |t.d.banks| > 0 && i < hi <= |t.lines|
  {
    exists b: nat, k: nat :: b in s && Next(t, hi, i, b, i', b', k)
  }

  lemma NextLive(t: Text, lo: nat, entry: set<nat>, i: nat, s: set<nat>, i': nat, s': set<nat>)
    requires |t.d.banks| > 0 && lo < |t.lines| && lo <= i < RegionEnd(t.lines, lo) && Live(t, lo, entry, (i, s))
    requires s' != {} && forall b': nat :: b' in s' ==> Leads(t, RegionEnd(t.lines, lo), i, s, i', b')
    ensures Live(t, lo, entry, (i', s'))
  {
    hide Next, OnRuns;
    forall b': nat | b' in s' ensures OnRuns(t, lo, entry, i', b') {
      assert Leads(t, RegionEnd(t.lines, lo), i, s, i', b');
      var b: nat, k: nat :| b in s && Next(t, RegionEnd(t.lines, lo), i, b, i', b', k);
      assert OnRuns(t, lo, entry, (i, s).0, b);
      StepOnRun(t, lo, entry, i, b, i', b', k);
    }
  }

  /** Control leaves the region: anything may come back. */
  lemma LeftLive(t: Text, lo: nat, entry: set<nat>, i: nat, s: set<nat>)
    requires |t.d.banks| > 0 && lo < |t.lines| && Live(t, lo, entry, (i, s))
    requires var hi := RegionEnd(t.lines, lo);
             i >= hi || (lo <= i && t.lines[i].Goto?
                         && !(LabelPos(t.lines, t.lines[i].target).Some?
                              && lo <= LabelPos(t.lines, t.lines[i].target).value < hi))
    ensures ExitsShown(t, lo, entry, ALL_BANKS)
  {
    hide OnRuns, Shown;
    var hi := RegionEnd(t.lines, lo);
    var b :| b in (i, s).1;
    assert OnRuns(t, lo, entry, (i, s).0, b);
    var b0: nat;
    if i < hi && LabelPos(t.lines, t.lines[i].target).Some? {
      var p := LabelPos(t.lines, t.lines[i].target).value;
      StepOnRun(t, lo, entry, i, b, p, b, 0);
      b0 := HereShown(t, lo, entry, p, b, Left);
    } else {
      b0 := HereShown(t, lo, entry, i, b, Left);
    }
    forall m: nat ensures ExitShown(t, lo, entry, m) { assert b0 in entry && Shown(t, lo, b0, Left); }
  }

  lemma ReturnLive(t: Text, lo: nat, entry: set<nat>, i: nat, s: set<nat>, exits: set<nat>)
    requires |t.d.banks| > 0 && lo < |t.lines| && lo <= i < RegionEnd(t.lines, lo) && Live(t, lo, entry, (i, s))
    requires t.lines[i].Return? && ExitsShown(t, lo, entry, exits)
    ensures ExitsShown(t, lo, entry, exits + s)
  {
    hide OnRuns, Shown;
    forall m: nat | m in s ensures ExitShown(t, lo, entry, m) {
      assert OnRuns(t, lo, entry, (i, s).0, m);
      var b0 := HereShown(t, lo, entry, i, m, Returned(m));
    }
  }

  /** The labels a live state passes on line `i` are passed by runs of the region. */
  lemma LabelLive(t: Text, lo: nat, entry: set<nat>, i: nat, s: set<nat>, p: nat, b: nat, b': nat)
    requires |t.d.banks| > 0 && IsOpener(t.lines, lo) && Live(t, lo, entry, (i, s)) && entry <= ALL_BANKS && b in s
    requires p < |t.lines| && t.lines[p].Label? && SeenHere(t, lo, RegionEnd(t.lines, lo), i, b, AtLabel(p, b'))
    ensures LabelSeen(t, t.lines[p].name, b')
  {
    hide OnRuns, Shown, SeenHere;
    assert OnRuns(t, lo, entry, (i, s).0, b);
    var b0 := HereShown(t, lo, entry, i, b, AtLabel(p, b'));
    assert t.lines[p] == Label(t.lines[p].name);
  }

  /** The set step behind a line is the image of the banks before it. */
  lemma AfterLeads(t: Text, hi: nat, i: nat, s: set<nat>, b': nat)
    requires |t.d.banks| > 0 && i < hi <= |t.lines| && s != {} && b' in After(t.d, t.lines[i], s)
    requires var l := t.lines[i]; !l.Return? && !l.Goto? && !l.Call? && !l.Skip? && !l.InlineAsm?
    ensures Leads(t, hi, i, s, i + 1, b')
  {
    var b: nat :| b in s && (b' in s ==> b == b');
    assert Next(t, hi, i, b, i + 1, b', 0);
  }

  lemma SkipLeads(t: Text, hi: nat, i: nat, s: set<nat>, b': nat) returns (b: nat)
    requires |t.d.banks| > 0 && i < hi <= |t.lines| && s != {} && t.lines[i].Skip?
    requires b' in After(t.d, t.lines[i], s)
    ensures b in s && b' == Pinned(t.d, t.lines[i], b)
    ensures Leads(t, hi, i, s, AfterLabels(t.lines, i + 1, hi), b')
    ensures Leads(t, hi, i, s, AfterLabels(t.lines, i + 1, hi) + 1, b')
  {
    b :| b in s && (b' in s ==> b == b');
    assert Next(t, hi, i, b, AfterLabels(t.lines, i + 1, hi), b', 0);
    assert Next(t, hi, i, b, AfterLabels(t.lines, i + 1, hi) + 1, b', 0);
  }

  lemma AsmLeads(t: Text, hi: nat, i: nat, s: set<nat>, b': nat)
    requires |t.d.banks| > 0 && i < hi <= |t.lines| && s != {} && t.lines[i].InlineAsm? && b' in ALL_BANKS
    ensures Leads(t, hi, i, s, i + 1, b')
  {
    var b: nat :| b in s;
    assert Next(t, hi, i, b, i + 1, b', 0);
  }

  lemma CallLeads(t: Text, hi: nat, i: nat, s: set<nat>, b': nat)
    requires |t.d.banks| > 0 && i < hi <= |t.lines| && t.lines[i].Call? && b' in ALL_BANKS
    requires CallSeen(t, t.lines[i].target, s, b')
    ensures Leads(t, hi, i, s, i + 1, b')
  {
    var b: nat, n: nat :| b in s && CallEnds(t, t.lines[i].target, b, b', n);
    hide CallEnds;
    assert Next(t, hi, i, b, i + 1, b', n);
  }

  // ---- Each kind of line keeps its states live ---------------------------------------

  lemma LabelsTight(t: Text, lo: nat, entry: set<nat>, i: nat, s: set<nat>)
    requires |t.d.banks| > 0 && IsOpener(t.lines, lo) && lo <= i < RegionEnd(t.lines, lo) && t.lines[i].Label?
    requires entry <= ALL_BANKS && (Returns(t) ==> Live(t, lo, entry, (i, s)))
    ensures LabelTight(t, t.lines[i].name, s)
  {
    hide Returns, Live, LabelSeen, IsOpener;
    if Returns(t) {
      forall b: nat | b in s ensures LabelSeen(t, t.lines[i].name, b) { LabelLive(t, lo, entry, i, s, i, b, b); }
    }
  }

  lemma BetweenTight(t: Text, lo: nat, entry: set<nat>, i: nat, s: set<nat>)
    requires |t.d.banks| > 0 && IsOpener(t.lines, lo) && lo <= i < RegionEnd(t.lines, lo) && t.lines[i].Skip?
    requires entry <= ALL_BANKS && (Returns(t) ==> Live(t, lo, entry, (i, s)))
    ensures forall p: nat :: i + 1 <= p < AfterLabels(t.lines, i + 1, RegionEnd(t.lines, lo)) ==>
      LabelTight(t, t.lines[p].name, After(t.d, t.lines[i], s))
  {
    hide Returns, Live, LabelSeen, IsOpener, After, Leads, Pinned;
    var hi := RegionEnd(t.lines, lo);
    forall p: nat | i + 1 <= p < AfterLabels(t.lines, i + 1, hi)
      ensures LabelTight(t, t.lines[p].name, After(t.d, t.lines[i], s))
    {
      if Returns(t) {
        LiveSome(t, lo, entry, i, s);
        forall b': nat | b' in After(t.d, t.lines[i], s) ensures LabelSeen(t, t.lines[p].name, b') {
          var b := SkipLeads(t, hi, i, s, b');
          LabelLive(t, lo, entry, i, s, p, b, b');
        }
      }
    }
  }

  lemma LiveSome(t: Text, lo: nat, entry: set<nat>, i: nat, s: set<nat>)
    requires |t.d.banks| > 0 && lo < |t.lines|
    ensures Live(t, lo, entry, (i, s)) ==> s != {}
  {
  }

  lemma StraightLive(t: Text, lo: nat, entry: set<nat>, i: nat, s: set<nat>, s': set<nat>)
    requires |t.d.banks| > 0 && lo < |t.lines| && lo <= i < RegionEnd(t.lines, lo)
    requires var l := t.lines[i]; !l.Return? && !l.Goto? && !l.Call? && !l.Skip? && !l.InlineAsm?
    requires s' == if t.lines[i].Label? then s else After(t.d, t.lines[i], s)
    requires Returns(t) ==> Live(t, lo, entry, (i, s))
    ensures Returns(t) ==> AllLive(t, lo, entry, [(i + 1, s')])
  {
    hide Returns, OnRuns, Leads;
    if Returns(t) {
      if t.lines[i].Label? { LabelAfter(t.d, t.lines[i], s); }
      AfterSome(t.d, t.lines[i], s);
      hide Live, After;
      forall b': nat | b' in s' ensures Leads(t, RegionEnd(t.lines, lo), i, s, i + 1, b') {
        AfterLeads(t, RegionEnd(t.lines, lo), i, s, b');
      }
      NextLive(t, lo, entry, i, s, i + 1, s');
    }
  }

  lemma AfterSome(d: Device, l: Line, s: set<nat>)
    requires |d.banks| > 0 && s != {}
    ensures After(d, l, s) != {}
  {
    assert 0 in ALL_BANKS;
  }

  lemma GotoLive(t: Text, lo: nat, entry: set<nat>, i: nat, s: set<nat>, pushed: seq<State>)
    requires |t.d.banks| > 0 && lo < |t.lines| && lo <= i < RegionEnd(t.lines, lo) && t.lines[i].Goto?
    requires var p := LabelPos(t.lines, t.lines[i].target);
             pushed == if p.Some? && lo <= p.value < RegionEnd(t.lines, lo) then [(p.value, s)] else []
    requires Returns(t) ==> Live(t, lo, entry, (i, s))
    ensures Returns(t) ==> AllLive(t, lo, entry, pushed) && (pushed == [] ==> ExitsShown(t, lo, entry, ALL_BANKS))
  {
    hide Returns, ExitsShown, OnRuns;
    if Returns(t) {
      if pushed == [] {
        LeftLive(t, lo, entry, i, s);
      } else {
        var p := pushed[0].0;
        forall b': nat | b' in s ensures Leads(t, RegionEnd(t.lines, lo), i, s, p, b') {
          assert Next(t, RegionEnd(t.lines, lo), i, b', p, b', 0);
        }
        NextLive(t, lo, entry, i, s, p, s);
      }
    }
  }

  lemma CallLive(t: Text, lo: nat, entry: set<nat>, i: nat, s: set<nat>, e: set<nat>)
    requires |t.d.banks| > 0 && lo < |t.lines| && lo <= i < RegionEnd(t.lines, lo) && t.lines[i].Call?
    requires s <= ALL_BANKS && e <= ALL_BANKS
    requires CallOk(t, t.lines[i].target, s, e) && CallTight(t, t.lines[i].target, s, e)
    requires Returns(t) ==> Live(t, lo, entry, (i, s))
    ensures Returns(t) ==> AllLive(t, lo, entry, [(i + 1, e)])
  {
    hide Returns, OnRuns, CallEnds, Leads, CallSeen;
    if Returns(t) {
      CallSome(t, t.lines[i].target, s, e);
      forall b': nat | b' in e ensures Leads(t, RegionEnd(t.lines, lo), i, s, i + 1, b') {
        CallLeads(t, RegionEnd(t.lines, lo), i, s, b');
      }
      NextLive(t, lo, entry, i, s, i + 1, e);
    }
  }

  lemma CallSome(t: Text, x: Name, s: set<nat>, e: set<nat>)
    requires |t.d.banks| > 0 && s <= ALL_BANKS && s != {} && CallOk(t, x, s, e) && Returns(t)
    ensures e != {}
  {
    hide CallEnds;
    var b :| b in s;
    assert ComesBack(t, x, b);
  }

  lemma SkipLive(t: Text, lo: nat, entry: set<nat>, i: nat, s: set<nat>)
    requires |t.d.banks| > 0 && lo < |t.lines| && lo <= i < RegionEnd(t.lines, lo) && t.lines[i].Skip?
    requires Returns(t) ==> Live(t, lo, entry, (i, s))
    ensures var s' := After(t.d, t.lines[i], s); var j := AfterLabels(t.lines, i + 1, RegionEnd(t.lines, lo));
            Returns(t) ==> AllLive(t, lo, entry, [(j + 1, s'), (j, s')])
  {
    hide Returns, OnRuns, Leads, Pinned;
    var hi := RegionEnd(t.lines, lo);
    var s', j := After(t.d, t.lines[i], s), AfterLabels(t.lines, i + 1, hi);
    if Returns(t) {
      AfterSome(t.d, t.lines[i], s);
      hide Live, After;
      forall b': nat | b' in s' ensures Leads(t, hi, i, s, j, b') && Leads(t, hi, i, s, j + 1, b') {
        var b := SkipLeads(t, hi, i, s, b');
      }
      NextLive(t, lo, entry, i, s, j, s');
      NextLive(t, lo, entry, i, s, j + 1, s');
    }
  }

  lemma AsmLive(t: Text, lo: nat, entry: set<nat>, i: nat, s: set<nat>)
    requires |t.d.banks| > 0 && lo < |t.lines| && lo <= i < RegionEnd(t.lines, lo) && t.lines[i].InlineAsm?
    requires Returns(t) ==> Live(t, lo, entry, (i, s))
    ensures Returns(t) ==> AllLive(t, lo, entry, [(i + 1, ALL_BANKS)])
  {
    hide Returns, OnRuns, Leads;
    if Returns(t) {
      assert 0 in ALL_BANKS;
      forall b': nat | b' in ALL_BANKS ensures Leads(t, RegionEnd(t.lines, lo), i, s, i + 1, b') {
        AsmLeads(t, RegionEnd(t.lines, lo), i, s, b');
      }
      NextLive(t, lo, entry, i, s, i + 1, ALL_BANKS);
    }
  }

  lemma NoRegionTight(t: Text, x: Name, entry: set<nat>)
    requires |t.d.banks| > 0 && RegionOf(t.lines, x).None? && (Returns(t) ==> entry != {})
    ensures CallTight(t, x, entry, ALL_BANKS)
  {
    hide Returns;
    if Returns(t) {
      var b :| b in entry;
      assert CallEnds(t, x, b, 0, 0);
      forall m: nat ensures CallSeen(t, x, entry, m) { assert CallEnds(t, x, b, m, 0); }
    }
  }

  lemma ShownTight(t: Text, x: Name, lo: nat, entry: set<nat>, exits: set<nat>)
    requires |t.d.banks| > 0 && RegionOf(t.lines, x) == Some(lo)
    requires Returns(t) ==> ExitsShown(t, lo, entry, exits)
    ensures CallTight(t, x, entry, exits)
  {
    hide Returns, Sees;
    if Returns(t) {
      var hi := RegionEnd(t.lines, lo);
      forall m: nat | m in exits ensures CallSeen(t, x, entry, m) {
        assert ExitShown(t, lo, entry, m);
        var b0: nat :| b0 in entry && (Shown(t, lo, b0, Returned(m)) || Shown(t, lo, b0, Left));
        if Shown(t, lo, b0, Returned(m)) {
          var n: nat :| Sees(t, lo, hi, lo, b0, Returned(m), n);
          assert CallEnds(t, x, b0, m, n);
        } else {
          var n: nat :| Sees(t, lo, hi, lo, b0, Left, n);
          assert CallEnds(t, x, b0, m, n);
        }
      }
    }
  }

  // ---- The walk ----------------------------------------------------------------------

  ghost function Universe(n: nat): (u: set<State>)
    ensures forall i: nat, s: set<nat> :: (i, s) in u <==> i <= n && s <= ALL_BANKS
  {
    set i: nat, s: set<nat> | i <= n && s <= ALL_BANKS :: (i, s)
  }

  ghost function Elems(work: seq<State>): set<State> {
    set v | v in work
  }

  ghost predicate CallsInto(ls: seq<Line>, lo: nat, i: nat, p: nat) {
    && IsOpener(ls, lo) && lo <= i < RegionEnd(ls, lo)
    && ls[i].Call? && RegionOf(ls, ls[i].target) == Some(p)
  }

  /** `rank` witnesses that no function reaches itself through calls. */
  ghost predicate Ranked(ls: seq<Line>, rank: seq<nat>) {
    && |rank| == |ls|
    && forall lo: nat, i: nat, p: nat :: CallsInto(ls, lo, i, p) ==> rank[p] < rank[lo]
  }

  /** A `.table` line or a write to PCL: such a region is not a seed of the label walk. */
  predicate HasComputedJump(ls: seq<Line>, lo: nat)
    requires lo < |ls|
  {
    exists i :: lo <= i < RegionEnd(ls, lo) && (ls[i].Table? || ls[i].MovPcl?)
  }

  /** From any bank, every label of the first `n` lines' jump-free regions is recorded. */
  ghost predicate SeedsCovered(t: Text, n: nat, labels: Labels)
    requires |t.d.banks| > 0 && n <= |t.lines|
  {
    forall lo: nat :: lo < n && IsOpener(t.lines, lo) && !HasComputedJump(t.lines, lo)
      ==> LabelsCovered(t, lo, ALL_BANKS, labels)
  }

  ghost predicate StateOk(t: Text, lo: nat, hi: nat, v: State)
    requires |t.d.banks| > 0
  {
    lo <= v.0 <= hi + 1 && v.1 <= ALL_BANKS && Plausible(t, v.1)
  }

  /** A state of the worklist: possible, and that of some run when every call comes back. */
  ghost predicate Queued(t: Text, lo: nat, entry: set<nat>, v: State)
    requires |t.d.banks| > 0 && lo < |t.lines|
  {
    StateOk(t, lo, RegionEnd(t.lines, lo), v) && (Returns(t) ==> Live(t, lo, entry, v))
  }

  ghost predicate AllQueued(t: Text, lo: nat, entry: set<nat>, work: seq<State>)
    requires |t.d.banks| > 0 && lo < |t.lines|
  {
    forall v :: v in work ==> Queued(t, lo, entry, v)
  }

  ghost predicate ExitsOk(t: Text, lo: nat, entry: set<nat>, exits: set<nat>)
    requires |t.d.banks| > 0 && lo < |t.lines|
  {
    exits <= ALL_BANKS && Plausible(t, exits) && (Returns(t) ==> ExitsShown(t, lo, entry, exits))
  }

  lemma QueuedIs(t: Text, lo: nat, entry: set<nat>, i: nat, s: set<nat>)
    requires Legal(t) && lo < |t.lines| && Queued(t, lo, entry, (i, s))
    ensures lo <= i && s <= ALL_BANKS && Plausible(t, s) && (Returns(t) ==> s != {} && Live(t, lo, entry, (i, s)))
    ensures i < RegionEnd(t.lines, lo) ==>
      var s' := After(t.d, t.lines[i], s); s' <= ALL_BANKS && Plausible(t, s')
    ensures AllQueued(t, lo, entry, [])
  {
    hide OnRuns, Returns;
    if i < RegionEnd(t.lines, lo) { AfterPossible(t, i, s); }
  }

  lemma QueueOne(t: Text, lo: nat, entry: set<nat>, i: nat, s: set<nat>)
    requires Legal(t) && lo < |t.lines| && lo <= i <= RegionEnd(t.lines, lo) + 1 && s <= ALL_BANKS && Plausible(t, s)
    requires Returns(t) ==> AllLive(t, lo, entry, [(i, s)])
    ensures AllQueued(t, lo, entry, [(i, s)])
  {
    hide Returns, Live;
    assert (i, s) in [(i, s)];
  }

  lemma QueueTwo(t: Text, lo: nat, entry: set<nat>, i: nat, s: set<nat>)
    requires Legal(t) && lo < |t.lines| && lo < i <= RegionEnd(t.lines, lo) && s <= ALL_BANKS && Plausible(t, s)
    requires Returns(t) ==> AllLive(t, lo, entry, [(i + 1, s), (i, s)])
    ensures AllQueued(t, lo, entry, [(i + 1, s), (i, s)])
  {
    hide Returns, Live;
    var work := [(i + 1, s), (i, s)];
    assert work[0] in work && work[1] in work;
  }

  lemma QueueMore(t: Text, lo: nat, entry: set<nat>, work: seq<State>, pushed: seq<State>)
    requires |t.d.banks| > 0 && lo < |t.lines| && work != []
    requires AllQueued(t, lo, entry, work)
    ensures Queued(t, lo, entry, work[|work| - 1]) && AllQueued(t, lo, entry, work[..|work| - 1])
    ensures AllQueued(t, lo, entry, pushed) ==> AllQueued(t, lo, entry, work[..|work| - 1] + pushed)
  {
    hide Queued;
  }

  lemma QueueStart(t: Text, lo: nat, entry: set<nat>)
    requires |t.d.banks| > 0 && lo < |t.lines| && entry <= ALL_BANKS && Plausible(t, entry)
    requires Returns(t) ==> entry != {}
    ensures AllQueued(t, lo, entry, [(lo, entry)]) && ExitsOk(t, lo, entry, {})
  {
    hide Returns, Live;
    if Returns(t) { StartLive(t, lo, entry); }
  }

  lemma ExitsAre(t: Text, lo: nat, entry: set<nat>, exits: set<nat>)
    requires |t.d.banks| > 0 && lo < |t.lines| && ExitsOk(t, lo, entry, exits)
    ensures exits <= ALL_BANKS && Plausible(t, exits) && (Returns(t) ==> ExitsShown(t, lo, entry, exits))
  {
  }

  lemma ExitsAll(t: Text, lo: nat, entry: set<nat>)
    requires |t.d.banks| > 0 && lo < |t.lines| && (Returns(t) ==> ExitsShown(t, lo, entry, ALL_BANKS))
    ensures ExitsOk(t, lo, entry, ALL_BANKS)
  {
    hide Returns, ExitsShown;
    AllPlausible(t);
  }

  lemma ExitsMore(t: Text, lo: nat, entry: set<nat>, i: nat, s: set<nat>, exits: set<nat>)
    requires |t.d.banks| > 0 && lo < |t.lines| && lo <= i < RegionEnd(t.lines, lo) && t.lines[i].Return?
    requires Queued(t, lo, entry, (i, s)) && ExitsOk(t, lo, entry, exits)
    ensures ExitsOk(t, lo, entry, exits + s)
  {
    hide Returns, Live, ExitsShown;
    JoinPlausible(t, exits, s);
    if Returns(t) { ReturnLive(t, lo, entry, i, s, exits); }
  }

  lemma ExitsLeft(t: Text, lo: nat, entry: set<nat>, i: nat, s: set<nat>)
    requires |t.d.banks| > 0 && lo < |t.lines| && RegionEnd(t.lines, lo) <= i && Queued(t, lo, entry, (i, s))
    ensures ExitsOk(t, lo, entry, ALL_BANKS)
  {
    hide Returns, Live, ExitsShown;
    AllPlausible(t);
    if Returns(t) { LeftLive(t, lo, entry, i, s); }
  }

  lemma AfterPossible(t: Text, i: nat, s: set<nat>)
    requires Legal(t) && i < |t.lines| && s <= ALL_BANKS && Plausible(t, s)
    ensures After(t.d, t.lines[i], s) <= ALL_BANKS && Plausible(t, After(t.d, t.lines[i], s))
    ensures Plausible(t, ALL_BANKS)
  {
    assert LineLegal(t.d, t.lines[i]);
    if Bank0Only(t) { assert LineKeepsBank0(t.d, t.lines[i]); }
  }

  lemma JoinPlausible(t: Text, s: set<nat>, s': set<nat>)
    requires |t.d.banks| > 0 && Plausible(t, s) && Plausible(t, s')
    ensures Plausible(t, s + s')
  {
  }

  lemma AllPlausible(t: Text)
    requires |t.d.banks| > 0
    ensures Plausible(t, ALL_BANKS)
  {
    assert 0 in ALL_BANKS;
  }

  lemma FirstIsFirst(ls: seq<Line>, lo: nat)
    requires IsOpener(ls, lo)
    ensures FirstOpener(ls) <= lo
  {
  }

  // ---- Each kind of line, stepped ----------------------------------------------------

  lemma StepLeaves(t: Text, lo: nat, hi: nat, i: nat, s: set<nat>, exits: set<nat>, labels: Labels)
    requires |t.d.banks| > 0 && lo <= hi <= |t.lines| && hi <= i && exits == ALL_BANKS
    ensures StepOk(t, lo, hi, i, s, Elems([]), exits, labels)
  {
  }

  lemma StepReturn(t: Text, lo: nat, hi: nat, i: nat, s: set<nat>, exits: set<nat>, labels: Labels)
    requires |t.d.banks| > 0 && lo <= i < hi <= |t.lines| && t.lines[i].Return? && s <= exits
    ensures StepOk(t, lo, hi, i, s, Elems([]), exits, labels)
  {
  }

  lemma StepGoto(t: Text, lo: nat, hi: nat, i: nat, s: set<nat>, pushed: seq<State>,
                 exits: set<nat>, labels: Labels)
    requires |t.d.banks| > 0 && lo <= i < hi <= |t.lines| && t.lines[i].Goto?
    requires var p := LabelPos(t.lines, t.lines[i].target);
             if p.Some? && lo <= p.value < hi then pushed == [(p.value, s)] else exits == ALL_BANKS
    ensures StepOk(t, lo, hi, i, s, Elems(pushed), exits, labels)
  {
    assert pushed != [] ==> pushed[0] in Elems(pushed);
  }

  lemma StepSkip(t: Text, lo: nat, hi: nat, i: nat, s: set<nat>, s': set<nat>, j: nat, pushed: seq<State>,
                 exits: set<nat>, labels: Labels)
    requires |t.d.banks| > 0 && lo <= i < hi <= |t.lines| && t.lines[i].Skip?
    requires s' == After(t.d, t.lines[i], s) && j == AfterLabels(t.lines, i + 1, hi)
    requires forall p, b :: i < p < j && b in s' ==> LabelHas(labels, t.lines[p], b)
    requires pushed == [(j + 1, s'), (j, s')]
    ensures StepOk(t, lo, hi, i, s, Elems(pushed), exits, labels)
  {
    hide After, AfterLabels, LabelHas;
    assert pushed[0] in Elems(pushed) && pushed[1] in Elems(pushed);
  }

  lemma StepOne(t: Text, lo: nat, hi: nat, i: nat, s: set<nat>, s': set<nat>, pushed: seq<State>,
                exits: set<nat>, labels: Labels)
    requires |t.d.banks| > 0 && lo <= i < hi <= |t.lines|
    requires pushed == [(i + 1, s')]
    requires var l := t.lines[i];
             match l
             case Label(_) => s' == s && forall b <- s :: LabelHas(labels, l, b)
             case Call(x) => CallOk(t, x, s, s')
             case InlineAsm => s' == ALL_BANKS
             case Return => false
             case Goto(_) => false
             case Skip(_) => false
             case _ => s' == After(t.d, l, s)
    ensures StepOk(t, lo, hi, i, s, Elems(pushed), exits, labels)
  {
    hide After, CallOk, LabelHas;
    assert pushed[0] in Elems(pushed);
  }

  // ---- What a visit comes to ---------------------------------------------------------

  /** A visit of line `i`: all that the line can do is recorded or pushed, and nothing else. */
  ghost predicate Visited(t: Text, lo: nat, entry: set<nat>, i: nat, s: set<nat>, exits: set<nat>,
                          exits': set<nat>, pushed: seq<State>, labels: Labels)
    requires |t.d.banks| > 0 && lo < |t.lines|
  {
    && exits <= exits' && ExitsOk(t, lo, entry, exits') && AllQueued(t, lo, entry, pushed)
    && StepOk(t, lo, RegionEnd(t.lines, lo), i, s, Elems(pushed), exits', labels)
  }

  lemma VisitedEnd(t: Text, lo: nat, entry: set<nat>, i: nat, s: set<nat>, exits: set<nat>, labels: Labels)
    requires Legal(t) && lo < |t.lines| && RegionEnd(t.lines, lo) <= i
    requires Queued(t, lo, entry, (i, s)) && ExitsOk(t, lo, entry, exits)
    ensures Visited(t, lo, entry, i, s, exits, ALL_BANKS, [], labels)
  {
    hide StepOk, Returns, Live, Plausible, ExitsShown;
    ExitsLeft(t, lo, entry, i, s);
    StepLeaves(t, lo, RegionEnd(t.lines, lo), i, s, ALL_BANKS, labels);
  }

  lemma VisitedReturn(t: Text, lo: nat, entry: set<nat>, i: nat, s: set<nat>, exits: set<nat>, labels: Labels)
    requires Legal(t) && lo < |t.lines| && lo <= i < RegionEnd(t.lines, lo) && t.lines[i].Return?
    requires Queued(t, lo, entry, (i, s)) && ExitsOk(t, lo, entry, exits)
    ensures Visited(t, lo, entry, i, s, exits, exits + s, [], labels)
  {
    hide StepOk, Returns, Live, Plausible, ExitsShown;
    ExitsMore(t, lo, entry, i, s, exits);
    StepReturn(t, lo, RegionEnd(t.lines, lo), i, s, exits + s, labels);
  }

  lemma VisitedGoto(t: Text, lo: nat, entry: set<nat>, i: nat, s: set<nat>, exits: set<nat>,
                    exits': set<nat>, pushed: seq<State>, labels: Labels)
    requires Legal(t) && lo < |t.lines| && lo <= i < RegionEnd(t.lines, lo) && t.lines[i].Goto?
    requires Queued(t, lo, entry, (i, s)) && ExitsOk(t, lo, entry, exits)
    requires var p := LabelPos(t.lines, t.lines[i].target);
             if p.Some? && lo <= p.value < RegionEnd(t.lines, lo) then pushed == [(p.value, s)] && exits' == exits
             else pushed == [] && exits' == ALL_BANKS
    ensures Visited(t, lo, entry, i, s, exits, exits', pushed, labels)
  {
    hide StepOk, Returns, Live, Plausible, ExitsShown, LineLegal, UniqueLabels;
    StepGoto(t, lo, RegionEnd(t.lines, lo), i, s, pushed, exits', labels);
    GotoLive(t, lo, entry, i, s, pushed);
    if pushed == [] {
      ExitsAll(t, lo, entry);
    } else {
      QueueOne(t, lo, entry, LabelPos(t.lines, t.lines[i].target).value, s);
    }
  }

  lemma VisitedSkip(t: Text, lo: nat, entry: set<nat>, i: nat, s: set<nat>, exits: set<nat>, labels: Labels)
    requires Legal(t) && lo < |t.lines| && lo <= i < RegionEnd(t.lines, lo) && t.lines[i].Skip?
    requires Queued(t, lo, entry, (i, s)) && ExitsOk(t, lo, entry, exits)
    requires forall p, b ::
               i < p < AfterLabels(t.lines, i + 1, RegionEnd(t.lines, lo)) && b in After(t.d, t.lines[i], s) ==>
               LabelHas(labels, t.lines[p], b)
    ensures var s' := After(t.d, t.lines[i], s); var j := AfterLabels(t.lines, i + 1, RegionEnd(t.lines, lo));
            Visited(t, lo, entry, i, s, exits, exits, [(j + 1, s'), (j, s')], labels)
  {
    hide StepOk, Returns, Live, Plausible, ExitsShown, LineLegal, UniqueLabels, After, LabelHas;
    var hi := RegionEnd(t.lines, lo);
    var s', j := After(t.d, t.lines[i], s), AfterLabels(t.lines, i + 1, hi);
    QueuedIs(t, lo, entry, i, s);
    StepSkip(t, lo, hi, i, s, s', j, [(j + 1, s'), (j, s')], exits, labels);
    SkipLive(t, lo, entry, i, s);
    QueueTwo(t, lo, entry, j, s');
  }

  /** A line with one line behind it. */
  lemma VisitedOne(t: Text, lo: nat, entry: set<nat>, i: nat, s: set<nat>, exits: set<nat>, s': set<nat>,
                   labels: Labels)
    requires Legal(t) && lo < |t.lines| && lo <= i < RegionEnd(t.lines, lo)
    requires Queued(t, lo, entry, (i, s)) && ExitsOk(t, lo, entry, exits) && s' <= ALL_BANKS && Plausible(t, s')
    requires var l := t.lines[i];
             match l
             case Label(_) => s' == s && forall b <- s :: LabelHas(labels, l, b)
             case Call(x) => CallOk(t, x, s, s') && CallTight(t, x, s, s')
             case InlineAsm => s' == ALL_BANKS
             case Return => false
             case Goto(_) => false
             case Skip(_) => false
             case _ => s' == After(t.d, l, s)
    ensures Visited(t, lo, entry, i, s, exits, exits, [(i + 1, s')], labels)
  {
    hide StepOk, Returns, Live, Plausible, ExitsShown, LineLegal, UniqueLabels, After, LabelHas, CallOk, CallTight;
    QueuedIs(t, lo, entry, i, s);
    StepOne(t, lo, RegionEnd(t.lines, lo), i, s, s', [(i + 1, s')], exits, labels);
    if t.lines[i].Call? {
      CallLive(t, lo, entry, i, s, s');
    } else if t.lines[i].InlineAsm? {
      AsmLive(t, lo, entry, i, s);
    } else {
      StraightLive(t, lo, entry, i, s, s');
    }
    QueueOne(t, lo, entry, i + 1, s');
  }

  class Analysis {
    const t: Text
    ghost const rank: seq<nat>
    var memo: map<(Name, set<nat>), set<nat>>
    var labels: Labels

    constructor (t: Text, ghost rank: seq<nat>)
      requires Legal(t) && Ranked(t.lines, rank)
      ensures Valid() && this.t == t && labels == map[]
    {
      this.t := t;
      this.rank := rank;
      memo := map[];
      labels := map[];
    }

    ghost predicate MemoOk(k: (Name, set<nat>), e: set<nat>)
      requires |t.d.banks| > 0
    {
      CallOk(t, k.0, k.1, e) && CallTight(t, k.0, k.1, e) && e <= ALL_BANKS && Plausible(t, e)
    }

    /** Recorded labels are real, lie in a region, and hold only possible banks: those of some run,
        when every call comes back. */
    ghost predicate LabelEntryOk(n: Name, s: set<nat>)
      requires |t.d.banks| > 0
    {
      && s <= ALL_BANKS && Plausible(t, s) && LabelTight(t, n, s)
      && exists p: nat :: FirstOpener(t.lines) <= p < |t.lines| && t.lines[p] == Label(n)
    }

    ghost predicate LabelsOk(ls: Labels)
      requires |t.d.banks| > 0
    {
      forall n :: n in ls ==> LabelEntryOk(n, ls[n])
    }

    ghost predicate Valid()
      reads this
    {
      && Legal(t) && Ranked(t.lines, rank)
      && (forall k :: k in memo ==> MemoOk(k, memo[k]))
      && LabelsOk(labels)
    }

    /** The entry of the label on line `p` with more banks joined in. */
    lemma Joined(ls: Labels, p: nat, s: set<nat>)
      requires |t.d.banks| > 0 && LabelsOk(ls) && FirstOpener(t.lines) <= p < |t.lines| && t.lines[p].Label?
      requires s <= ALL_BANKS && Plausible(t, s) && LabelTight(t, t.lines[p].name, s)
      ensures var n := t.lines[p].name; var ls' := ls[n := (if n in ls then ls[n] else {}) + s];
              LabelsOk(ls') && LabelsGrow(ls, ls') && forall b <- s :: LabelHas(ls', t.lines[p], b)
    {
      hide Plausible, FirstOpener, Returns, LabelSeen;
      var n := t.lines[p].name;
      assert t.lines[p] == Label(n);
      var was: set<nat> := if n in ls then ls[n] else {};
      if n in ls {
        assert LabelEntryOk(n, was);
        JoinPlausible(t, was, s);
      } else {
        assert was + s == s;
      }
    }

    /** Join the arriving banks into a label's entry. */
    method Join(p: nat, s: set<nat>)
      requires Valid() && FirstOpener(t.lines) <= p < |t.lines| && t.lines[p].Label?
      requires s <= ALL_BANKS && Plausible(t, s) && LabelTight(t, t.lines[p].name, s)
      modifies this`labels
      ensures Valid() && LabelsGrow(old(labels), labels)
      ensures labels == old(labels)[t.lines[p].name :=
                (if t.lines[p].name in old(labels) then old(labels)[t.lines[p].name] else {}) + s]
      ensures forall b <- s :: LabelHas(labels, t.lines[p], b)
    {
      hide MemoOk, LabelsOk, LineLegal, UniqueLabels, Ranked, Plausible, LabelsGrow, LabelHas, LabelTight;
      Joined(labels, p, s);
      var n := t.lines[p].name;
      labels := labels[n := (if n in labels then labels[n] else {}) + s];
    }

    /** Join the labels between a skip and the instruction it guards. */
    method JoinBetween(i: nat, j: nat, s: set<nat>)
      requires Valid() && FirstOpener(t.lines) <= i <= j <= |t.lines|
      requires forall p :: i <= p < j ==> t.lines[p].Label?
      requires s <= ALL_BANKS && Plausible(t, s)
      requires forall p: nat :: i <= p < j ==> LabelTight(t, t.lines[p].name, s)
      modifies this`labels
      ensures Valid() && LabelsGrow(old(labels), labels)
      ensures forall p, b :: i <= p < j && b in s ==> LabelHas(labels, t.lines[p], b)
    {
      hide Valid, Plausible, NextOpener, LabelTight;
      var p := i;
      while p < j
        invariant i <= p <= j && Valid() && LabelsGrow(old(labels), labels)
        invariant forall q, b :: i <= q < p && b in s ==> LabelHas(labels, t.lines[q], b)
      {
        Join(p, s);
        p := p + 1;
      }
    }

    lemma Known()
      requires Valid()
      ensures Legal(t) && Ranked(t.lines, rank)
    {
    }

    /** One visit: what line `i` pushes, after recording its exits and label banks. */
    method Visit(lo: nat, hi: nat, i: nat, s: set<nat>, exits: set<nat>, ghost entry: set<nat>)
        returns (exits': set<nat>, pushed: seq<State>)
      requires Valid() && IsOpener(t.lines, lo) && hi == RegionEnd(t.lines, lo)
      requires Queued(t, lo, entry, (i, s)) && ExitsOk(t, lo, entry, exits) && entry <= ALL_BANKS
      modifies this`memo, this`labels
      ensures Valid() && LabelsGrow(old(labels), labels)
      ensures Visited(t, lo, entry, i, s, exits, exits', pushed, labels)
      decreases rank[lo] + 1, 0
    {
      hide Valid, Plausible, CallOk, After, IsOpener, LineLegal, UniqueLabels, Ranked, CallTight, LabelTight;
      hide Returns, Live, Queued, ExitsOk, Visited, LabelsGrow, LabelHas;
      Known();
      FirstIsFirst(t.lines, lo);
      GrowMore(labels, labels, labels);
      QueuedIs(t, lo, entry, i, s);
      exits', pushed := exits, [];
      if i >= hi {
        exits' := ALL_BANKS;
        VisitedEnd(t, lo, entry, i, s, exits, labels);
        return;
      }
      var l := t.lines[i];
      match l
      case Label(_) =>
        LabelsTight(t, lo, entry, i, s);
        Join(i, s);
        pushed := [(i + 1, s)];
        VisitedOne(t, lo, entry, i, s, exits, s, labels);
      case Return =>
        exits' := exits + s;
        VisitedReturn(t, lo, entry, i, s, exits, labels);
      case Goto(x) =>
        var p := LabelPos(t.lines, x);
        if p.Some? && lo <= p.value < hi {
          pushed := [(p.value, s)];
        } else {
          exits' := ALL_BANKS;
        }
        VisitedGoto(t, lo, entry, i, s, exits, exits', pushed, labels);
      case Call(x) =>
        assert RegionOf(t.lines, x).Some? ==> CallsInto(t.lines, lo, i, RegionOf(t.lines, x).value);
        var e := FuncExitBank(x, s);
        pushed := [(i + 1, e)];
        VisitedOne(t, lo, entry, i, s, exits, e, labels);
      case Skip(_) =>
        var s' := After(t.d, l, s);
        var j := AfterLabels(t.lines, i + 1, hi);
        BetweenTight(t, lo, entry, i, s);
        JoinBetween(i + 1, j, s');
        pushed := [(j + 1, s'), (j, s')];
        VisitedSkip(t, lo, entry, i, s, exits, labels);
      case InlineAsm =>
        pushed := [(i + 1, ALL_BANKS)];
        AllPlausible(t);
        VisitedOne(t, lo, entry, i, s, exits, ALL_BANKS, labels);
      case _ =>
        pushed := [(i + 1, After(t.d, l, s))];
        VisitedOne(t, lo, entry, i, s, exits, After(t.d, l, s), labels);
    }

    /** Walk the region at `lo` from its opener: the returned banks cover every way a run
        entered with a bank of `entry` can end, and every label it can pass is recorded. When every
        call comes back, nothing else is returned. */
    method WalkRegion(lo: nat, entry: set<nat>) returns (exits: set<nat>)
      requires Valid() && IsOpener(t.lines, lo) && entry <= ALL_BANKS && Plausible(t, entry)
      requires Returns(t) ==> entry != {}
      modifies this`memo, this`labels
      ensures Valid() && LabelsGrow(old(labels), labels)
      ensures exits <= ALL_BANKS && Plausible(t, exits)
      ensures Returns(t) ==> ExitsShown(t, lo, entry, exits)
      ensures RegionCovered(t, lo, entry, exits, labels)
      decreases rank[lo] + 1, 1
    {
      assert |t.d.banks| > 0 && lo < |t.lines| && rank[lo] >= 0;
      GrowMore(labels, labels, labels);
      QueueStart(t, lo, entry);
      var hi := RegionEnd(t.lines, lo);
      exits := {};
      var work: seq<State> := [(lo, entry)];
      var visited: set<State> := {};
      SteppedNone(t, lo, hi, Elems(work), exits, labels);
      hide Valid, Plausible, StepOk, Stepped, LabelsGrow, RegionCovered, IsOpener, Returns, Live, ExitsShown, AllQueued;
      hide ExitsOk;
      ghost var all := Universe(hi + 1);
      while work != []
        invariant Valid() && LabelsGrow(old(labels), labels)
        invariant visited <= all && ExitsOk(t, lo, entry, exits) && AllQueued(t, lo, entry, work)
        invariant Stepped(t, lo, hi, visited, visited + Elems(work), exits, labels)
        invariant (lo, entry) in visited + Elems(work)
        decreases all - visited, |work|
      {
        var v := work[|work| - 1];
        QueueMore(t, lo, entry, work, []);
        ghost var before, exits0, labels0 := work, exits, labels;
        work := work[..|work| - 1];
        if v in visited {
          Popped(before, visited);
        } else {
          var pushed;
          exits, pushed := Visit(lo, hi, v.0, v.1, exits, entry);
          QueueMore(t, lo, entry, before, pushed);
          work := work + pushed;
          Expanded(t, lo, hi, visited, before, pushed, exits0, labels0, exits, labels);
          GrowMore(old(labels), labels0, labels);
          visited := visited + {v};
        }
      }
      assert Elems(work) == {} && visited + Elems(work) == visited;
      ExitsAre(t, lo, entry, exits);
      WalkCovers(t, lo, hi, visited, exits, labels, entry);
    }

    /** The banks a call of `x` entered with a bank of `entry` can come back with, remembered. */
    method FuncExitBank(x: Name, entry: set<nat>) returns (e: set<nat>)
      requires Valid() && entry <= ALL_BANKS && Plausible(t, entry)
      requires Returns(t) ==> entry != {}
      modifies this`memo, this`labels
      ensures Valid() && LabelsGrow(old(labels), labels)
      ensures e <= ALL_BANKS && Plausible(t, e) && CallOk(t, x, entry, e) && CallTight(t, x, entry, e)
      decreases match RegionOf(t.lines, x) case Some(p) => rank[p] + 1 case None => 0, 2
    {
      if (x, entry) in memo {
        assert MemoOk((x, entry), memo[(x, entry)]);
        return memo[(x, entry)];
      }
      var p := RegionOf(t.lines, x);
      if p.None? {
        NoRegionTight(t, x, entry);
        return ALL_BANKS;
      }
      e := WalkRegion(p.value, entry);
      CoveredCall(t, x, p.value, entry, e, labels);
      ShownTight(t, x, p.value, entry, e);
      memo := memo[(x, entry) := e];
    }

    /** Walk every region without a computed jump from the unknown bank. */
    method LabelProvableBanks()
      requires Valid()
      modifies this`memo, this`labels
      ensures Valid()
      ensures SeedsCovered(t, |t.lines|, labels)
      ensures Returns(t) ==> forall n, b: nat :: n in labels && b in labels[n] ==> LabelSeen(t, n, b)
    {
      assert |t.d.banks| > 0;
      AllPlausible(t);
      assert 0 in ALL_BANKS;
      labels := map[];
      assert SeedsCovered(t, 0, labels);
      assert Valid();
      hide Valid, Plausible, LabelsGrow, IsOpener, HasComputedJump, LabelsCovered, RegionCovered, SeedsCovered;
      var i := 0;
      while i < |t.lines|
        invariant i <= |t.lines| && Valid()
        invariant SeedsCovered(t, i, labels)
      {
        if IsOpener(t.lines, i) && !HasComputedJump(t.lines, i) {
          ghost var before := labels;
          var e := WalkRegion(i, ALL_BANKS);
          CoveredLabels(t, i, ALL_BANKS, e, labels);
          SeedsMore(t, i, before, labels);
        }
        SeedsNext(t, i, labels);
        i := i + 1;
      }
      LabelsTightAll();
    }

    lemma LabelsTightAll()
      requires Valid()
      ensures Returns(t) ==> forall n, b: nat :: n in labels && b in labels[n] ==> LabelSeen(t, n, b)
    {
      hide Returns, Plausible, LabelSeen, MemoOk;
      if Returns(t) {
        forall n, b: nat | n in labels && b in labels[n] ensures LabelSeen(t, n, b) {
          assert LabelEntryOk(n, labels[n]);
        }
      }
    }
  }

  lemma SteppedMore(t: Text, lo: nat, hi: nat, seen: set<State>, reach: set<State>, exits: set<nat>,
                    labels: Labels, reach': set<State>, exits': set<nat>, labels': Labels)
    requires |t.d.banks| > 0 && lo <= hi <= |t.lines|
    requires Stepped(t, lo, hi, seen, reach, exits, labels)
    requires reach <= reach' && exits <= exits' && LabelsGrow(labels, labels')
    ensures Stepped(t, lo, hi, seen, reach', exits', labels')
  {
    hide StepOk, LabelsGrow;
    forall v | v in seen ensures StepOk(t, lo, hi, v.0, v.1, reach', exits', labels') {
      StepOkMore(t, lo, hi, v.0, v.1, reach, exits, labels, reach', exits', labels');
    }
  }

  lemma SteppedNone(t: Text, lo: nat, hi: nat, reach: set<State>, exits: set<nat>, labels: Labels)
    requires |t.d.banks| > 0 && lo <= hi <= |t.lines|
    ensures Stepped(t, lo, hi, {}, {} + reach, exits, labels)
  {
  }

  lemma GrowMore(a: Labels, b: Labels, c: Labels)
    ensures LabelsGrow(a, a)
    ensures LabelsGrow(a, b) && LabelsGrow(b, c) ==> LabelsGrow(a, c)
  {
  }

  lemma Popped(work: seq<State>, visited: set<State>)
    requires work != [] && work[|work| - 1] in visited
    ensures visited + Elems(work) == visited + Elems(work[..|work| - 1])
  {
    assert work == work[..|work| - 1] + [work[|work| - 1]];
  }

  /** Visiting the last state of the worklist keeps every visited state stepped. */
  lemma Expanded(t: Text, lo: nat, hi: nat, visited: set<State>, work: seq<State>, pushed: seq<State>,
                 exits: set<nat>, labels: Labels, exits': set<nat>, labels': Labels)
    requires |t.d.banks| > 0 && lo <= hi <= |t.lines| && work != []
    requires Stepped(t, lo, hi, visited, visited + Elems(work), exits, labels)
    requires exits <= exits' && LabelsGrow(labels, labels')
    requires var v := work[|work| - 1]; StepOk(t, lo, hi, v.0, v.1, Elems(pushed), exits', labels')
    ensures var v := work[|work| - 1]; var work' := work[..|work| - 1] + pushed;
            && Stepped(t, lo, hi, visited + {v}, visited + {v} + Elems(work'), exits', labels')
            && visited + Elems(work) <= visited + {v} + Elems(work')
  {
    hide LabelsGrow;
    var v := work[|work| - 1];
    var work' := work[..|work| - 1] + pushed;
    var reach := visited + {v} + Elems(work');
    assert work == work[..|work| - 1] + [v];
    assert visited + Elems(work) <= reach;
    assert Elems(pushed) <= reach;
    SteppedMore(t, lo, hi, visited, visited + Elems(work), exits, labels, reach, exits', labels');
    GrowMore(labels', labels', labels');
    StepOkMore(t, lo, hi, v.0, v.1, Elems(pushed), exits', labels', reach, exits', labels');
    hide StepOk;
  }

  lemma WalkCovers(t: Text, lo: nat, hi: nat, seen: set<State>, exits: set<nat>, labels: Labels,
                   entry: set<nat>)
    requires |t.d.banks| > 0 && lo < |t.lines| && hi == RegionEnd(t.lines, lo)
    requires Stepped(t, lo, hi, seen, seen, exits, labels) && (lo, entry) in seen
    ensures RegionCovered(t, lo, entry, exits, labels)
  {
    hide Stepped, Sees, Covered;
    forall b: nat, o: Obs, n: nat | b in entry && Sees(t, lo, hi, lo, b, o, n)
      ensures Covered(t, o, exits, labels)
    {
      ClosedCovers(t, lo, hi, seen, exits, labels, lo, entry, b, o, n);
    }
  }

  lemma CoveredLabels(t: Text, lo: nat, entry: set<nat>, exits: set<nat>, labels: Labels)
    requires |t.d.banks| > 0 && lo < |t.lines| && RegionCovered(t, lo, entry, exits, labels)
    ensures LabelsCovered(t, lo, entry, labels)
  {
    hide Sees;
    forall b: nat, p: nat, m: nat, n: nat
      | b in entry && Sees(t, lo, RegionEnd(t.lines, lo), lo, b, AtLabel(p, m), n)
      ensures p < |t.lines| && LabelHas(labels, t.lines[p], m)
    {
      assert Covered(t, AtLabel(p, m), exits, labels);
    }
  }

  lemma SeedsMore(t: Text, n: nat, labels: Labels, labels': Labels)
    requires |t.d.banks| > 0 && n <= |t.lines|
    requires SeedsCovered(t, n, labels) && LabelsGrow(labels, labels')
    ensures SeedsCovered(t, n, labels')
  {
    hide LabelsCovered, LabelsGrow, IsOpener, HasComputedJump;
    forall lo: nat | lo < n && IsOpener(t.lines, lo) && !HasComputedJump(t.lines, lo)
      ensures LabelsCovered(t, lo, ALL_BANKS, labels')
    {
      LabelsCoveredMore(t, lo, ALL_BANKS, labels, labels');
    }
  }

  lemma SeedsNext(t: Text, n: nat, labels: Labels)
    requires |t.d.banks| > 0 && n < |t.lines| && SeedsCovered(t, n, labels)
    requires IsOpener(t.lines, n) && !HasComputedJump(t.lines, n) ==> LabelsCovered(t, n, ALL_BANKS, labels)
    ensures SeedsCovered(t, n + 1, labels)
  {
  }

  lemma LabelsCoveredMore(t: Text, lo: nat, entry: set<nat>, labels: Labels, labels': Labels)
    requires |t.d.banks| > 0 && lo < |t.lines| && LabelsCovered(t, lo, entry, labels)
    requires LabelsGrow(labels, labels')
    ensures LabelsCovered(t, lo, entry, labels')
  {
    hide Sees;
  }
}
