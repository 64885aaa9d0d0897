/** The interrupt contexts' regions: each priority's frames start above everything it can
    preempt, with the context-save areas carved in between. */
module Interrupts {
  import opened Wrappers
  import opened Devices
  import opened Placement
  import opened Cfg
  import opened Overlay

  const ISR_SAVE_BYTES := 7
  const LOW_SAVE_BYTES := 19

  /** The final bases and the carved save areas. */
  datatype Layout = Layout(
    base: map<nat, nat>, lowSave: Option<nat>, save: Option<nat>, highSave: Option<nat>)

  ghost predicate InContext(p: Program, roots: set<nat>, f: nat) {
    exists r: nat :: r in roots && Reaches(p.edges, r, f)
  }

  ghost predicate AreRoots(p: Program, roots: set<nat>) {
    forall r: nat :: r in roots ==> r < |p.callers| && p.callers[r] == []
  }

  method ReachAll(p: Program, roots: set<nat>) returns (ctx: set<nat>)
    requires Closed(p.edges) && forall r :: r in roots ==> r < |p.edges|
    ensures forall f: nat :: f in ctx <==> InContext(p, roots, f)
  {
    ctx := {};
    var todo := roots;
    while todo != {}
      invariant todo <= roots
      invariant forall f: nat :: f in ctx <==> InContext(p, roots - todo, f)
    {
      var r :| r in todo;
      var more := Closure(p.edges, r);
      ghost var done := roots - todo;
      todo := todo - {r};
      assert roots - todo == done + {r};
      ctx := ctx + more;
      forall f: nat ensures f in ctx <==> InContext(p, roots - todo, f) {
        if InContext(p, roots - todo, f) {
          var q: nat :| q in roots - todo && Reaches(p.edges, q, f);
          if q != r { assert InContext(p, done, f); }
        }
        if InContext(p, done, f) {
          var q: nat :| q in done && Reaches(p.edges, q, f);
          assert q in roots - todo;
        }
      }
    }
    assert roots - todo == roots;
  }

  /** The highest frame end among `fs`, at least `floor`. */
  method MaxEnd(p: Program, base: map<nat, nat>, fs: set<nat>, floor: nat) returns (r: nat)
    requires Valid(p) && forall f :: f in fs ==> Placed(p, base, f)
    ensures r >= floor && forall f :: f in fs ==> EndOf(p, base, f) <= r
    ensures r == floor || exists f :: f in fs && EndOf(p, base, f) == r
  {
    r := floor;
    var todo := fs;
    while todo != {}
      invariant todo <= fs && r >= floor
      invariant forall f :: f in fs && f !in todo ==> EndOf(p, base, f) <= r
      invariant r == floor || exists f :: f in fs && EndOf(p, base, f) == r
    {
      var f :| f in todo;
      todo := todo - {f};
      var e := ComputeFrameEnd(p.d, base[f], p.funcs[f].widths);
      r := Max(r, e.value);
    }
  }

  lemma ContextClosed(p: Program, roots: set<nat>, c: nat, f: nat)
    requires Edge(p.edges, c, f) && InContext(p, roots, c)
    ensures InContext(p, roots, f)
  {
    var r: nat :| r in roots && Reaches(p.edges, r, c);
    var q :| PathFromTo(p.edges, q, r, c);
    Snoc(p.edges, q, r, c, f);
  }

  /** The bases after the turns of the first `k` functions of the order, when one context is
      re-derived from `start`. */
  ghost function RegionUpTo(p: Program, base0: map<nat, nat>, roots: set<nat>, start: nat, k: nat): Option<map<nat,
                            nat>>
    requires Valid(p) && k <= |p.topo|
  {
    if k == 0 then Some(base0)
    else match RegionUpTo(p, base0, roots, start, k - 1)
      case None => None
      case Some(base) =>
        if InContext(p, roots, p.topo[k - 1]) then WithPlaced(p, base, p.topo[k - 1], p.dip != Off, start)
        else Some(base)
  }

  ghost function RegionBases(p: Program, base0: map<nat, nat>, roots: set<nat>, start: nat): Option<map<nat, nat>>
    requires Valid(p)
  {
    RegionUpTo(p, base0, roots, start, |p.topo|)
  }

  /** The pass gets as far as `topo[k]`, which is in the context and has no place. */
  ghost predicate RegionStuckAt(p: Program, base0: map<nat, nat>, roots: set<nat>, start: nat, k: nat)
    requires Valid(p) && k < |p.topo|
  {
    && RegionUpTo(p, base0, roots, start, k).Some? && InContext(p, roots, p.topo[k])
    && Stuck(p, RegionUpTo(p, base0, roots, start, k).value, p.topo[k], p.dip != Off, start)
  }

  lemma {:induction false} RegionStays(p: Program, base0: map<nat, nat>, roots: set<nat>, start: nat, j: nat, k: nat)
    requires Valid(p) && j <= k <= |p.topo| && RegionUpTo(p, base0, roots, start, k).Some?
    ensures RegionUpTo(p, base0, roots, start, j).Some?
  {
    hide InContext, WithPlaced;
    if j < k { RegionStays(p, base0, roots, start, j, k - 1); }
  }

  lemma RegionStuck(p: Program, base0: map<nat, nat>, roots: set<nat>, start: nat, k: nat)
    requires Valid(p) && k < |p.topo| && RegionUpTo(p, base0, roots, start, k + 1).None?
    ensures RegionBases(p, base0, roots, start).None?
  {
    hide Valid, InContext, WithPlaced;
    if RegionBases(p, base0, roots, start).Some? { RegionStays(p, base0, roots, start, k + 1, |p.topo|); }
  }

  /** Re-derive one context's bases from its region start, in topological order. `None`: some
      function of the context has no place. */
  method AssignRegion(p: Program, base0: map<nat, nat>, roots: set<nat>, start: nat)
    returns (r: Option<map<nat, nat>>)
    requires Valid(p) && (forall f :: 0 <= f < |p.funcs| ==> SitesCover(p, f))
    requires Settled(p, base0) && AreRoots(p, roots)
    ensures r == RegionBases(p, base0, roots, start)
    ensures r.None? <==> exists k :: 0 <= k < |p.topo| && RegionStuckAt(p, base0, roots, start, k)
    ensures r.Some? ==> forall f: nat :: f < |p.funcs| && InContext(p, roots, f) ==>
      f in r.value && Ruled(p, r.value, f, p.dip != Off, start)
    ensures r.Some? ==> Settled(p, r.value)
    ensures r.Some? ==> forall f: nat :: f in base0 && !InContext(p, roots, f) ==>
      f in r.value && r.value[f] == base0[f]
    ensures r.Some? ==> forall f: nat :: f in roots ==>
      f in r.value && r.value[f] >= start && (!p.funcs[f].routine ==> r.value[f] == start)
  {
    hide Valid, Settled, InContext, Redone, RegionUpTo, RegionStuckAt, SitesCover, AreRoots, Ruled;
    InFuncsAll(p, roots);
    RedoneStart(p, base0, roots, start);
    var ctx := ReachAll(p, roots);
    var base: map<nat, nat> := base0;
    for k := 0 to |p.topo|
      invariant Redone(p, base0, base, roots, start, k)
      invariant forall j :: 0 <= j < k ==> !RegionStuckAt(p, base0, roots, start, j)
    {
      var b := RegionStep(p, base0, base, roots, ctx, k, start);
      if b.None? {
        RegionStuck(p, base0, roots, start, k);
        return None;
      }
      base := b.value;
    }
    RedoneAll(p, base0, base, roots, start);
    RegionRuled(p, base0, base, roots, start);
    r := Some(base);
  }

  lemma RegionRuled(p: Program, base0: map<nat, nat>, base: map<nat, nat>, roots: set<nat>, start: nat)
    requires Valid(p) && Settled(p, base) && RegionBases(p, base0, roots, start) == Some(base)
    requires forall f :: 0 <= f < |p.funcs| ==> SitesCover(p, f)
    ensures forall f: nat :: f < |p.funcs| && InContext(p, roots, f) ==>
      f in base && Ruled(p, base, f, p.dip != Off, start)
  {
    forall f: nat | f < |p.funcs| && InContext(p, roots, f)
      ensures f in base && Ruled(p, base, f, p.dip != Off, start)
    {
      var j := IndexOf(p, f);
      RegionFixed(p, base0, roots, start, |p.topo|, j);
      SettledHas(p, base, f);
      hide Valid, Settled, BaseOf, Ruled, SitesCover, InContext;
      BaseIsRuled(p, base, f, p.dip != Off, start);
    }
  }

  /** After `k` turns: what is placed again, and what still stands where it was. */
  ghost predicate Redone(p: Program, base0: map<nat, nat>, base: map<nat, nat>, roots: set<nat>, start: nat, k: nat)
    requires Valid(p) && k <= |p.topo|
  {
    && SettledUpTo(p, base, k) && RegionUpTo(p, base0, roots, start, k) == Some(base)
    && (forall f: nat :: f in base0 && !InContext(p, roots, f) ==> f in base && base[f] == base0[f])
    && (forall j :: 0 <= j < k && p.topo[j] in roots ==>
          base[p.topo[j]] >= start && (!p.funcs[p.topo[j]].routine ==> base[p.topo[j]] == start))
  }

  lemma RedoneStart(p: Program, base0: map<nat, nat>, roots: set<nat>, start: nat)
    requires Valid(p) && Settled(p, base0)
    ensures Redone(p, base0, base0, roots, start, 0)
  {
  }

  lemma InFuncsAll(p: Program, roots: set<nat>)
    requires Valid(p) && AreRoots(p, roots)
    ensures Closed(p.edges) && forall r :: r in roots ==> r < |p.edges|
  {
  }

  lemma RedoneAll(p: Program, base0: map<nat, nat>, base: map<nat, nat>, roots: set<nat>, start: nat)
    requires Valid(p) && AreRoots(p, roots) && Redone(p, base0, base, roots, start, |p.topo|)
    ensures Settled(p, base) && RegionBases(p, base0, roots, start) == Some(base)
    ensures forall f: nat :: f in base0 && !InContext(p, roots, f) ==> f in base && base[f] == base0[f]
    ensures forall f: nat :: f in roots ==>
      f in base && base[f] >= start && (!p.funcs[f].routine ==> base[f] == start)
  {
    hide AboveCallers, InContext, RegionUpTo;
    AllSettled(p, base);
    forall f: nat | f in roots
      ensures f in base && base[f] >= start && (!p.funcs[f].routine ==> base[f] == start)
    {
      assert f in p.topo;
      var j :| 0 <= j < |p.topo| && p.topo[j] == f;
    }
  }

  /** The turn of `topo[k]`: a new base when it belongs to the context, else the old one. */
  method RegionStep(p: Program, ghost base0: map<nat, nat>, base: map<nat, nat>, roots: set<nat>, ctx: set<nat>,
                    k: nat, start: nat)
    returns (r: Option<map<nat, nat>>)
    requires Valid(p) && (forall f :: 0 <= f < |p.funcs| ==> SitesCover(p, f))
    requires Settled(p, base0) && AreRoots(p, roots) && k < |p.topo| && Redone(p, base0, base, roots, start, k)
    requires forall f: nat :: f in ctx <==> InContext(p, roots, f)
    ensures r == RegionUpTo(p, base0, roots, start, k + 1)
    ensures r.None? <==> RegionStuckAt(p, base0, roots, start, k)
    ensures r.Some? ==> Redone(p, base0, r.value, roots, start, k + 1)
  {
    hide Stuck, WithPlaced, Settled, AboveCallers;
    var f := p.topo[k];
    assert f in roots ==> f in ctx by {
      assert PathFromTo(p.edges, [f], f, f);
    }
    if f !in ctx {
      OutsideStays(p, base0, base, roots, k);
      return Some(base);
    }
    r := PlaceOne(p, base, k, p.dip != Off, start);
    assert r.Some? ==> forall j :: 0 <= j < k ==> p.topo[j] != f && r.value[p.topo[j]] == base[p.topo[j]];
  }

  /** A function outside the context has its callers outside too, so it stays settled. */
  lemma OutsideStays(p: Program, base0: map<nat, nat>, base: map<nat, nat>, roots: set<nat>, k: nat)
    requires Valid(p) && Settled(p, base0) && k < |p.topo| && !InContext(p, roots, p.topo[k])
    requires forall f: nat :: f in base0 && !InContext(p, roots, f) ==> f in base && base[f] == base0[f]
    requires SettledUpTo(p, base, k)
    ensures SettledUpTo(p, base, k + 1)
  {
    var f := p.topo[k];
    forall c: nat | Edge(p.edges, c, f) ensures c in base0 && c in base && base[c] == base0[c] {
      assert Placed(p, base0, c);
      if InContext(p, roots, c) { ContextClosed(p, roots, c, f); }
    }
    assert Placed(p, base0, f) && AboveCallers(p, base0, f, base0[f]);
    forall i | 0 <= i < |p.sites[f]| ensures Edge(p.edges, p.sites[f][i].caller, f) {
    }
    assert AboveCallers(p, base, f, base[f]);
  }

  // ---- The whole layout --------------------------------------------------------------

  function RootsWhere(p: Program, want: FuncFrame -> bool, n: nat): (s: set<nat>)
    requires n <= |p.funcs| == |p.callers|
    ensures forall f: nat :: f in s <==> f < n && p.callers[f] == [] && want(p.funcs[f])
  {
    if n == 0 then {}
    else RootsWhere(p, want, n - 1) + (if p.callers[n - 1] == [] && want(p.funcs[n - 1]) then {n - 1} else {})
  }

  function MainRoots(p: Program): set<nat>
    requires |p.funcs| == |p.callers|
  {
    RootsWhere(p, (fr: FuncFrame) => !fr.isr, |p.funcs|)
  }

  function LowRoots(p: Program): set<nat>
    requires |p.funcs| == |p.callers|
  {
    RootsWhere(p, (fr: FuncFrame) => fr.isr && fr.priority != 1, |p.funcs|)
  }

  function HighRoots(p: Program): set<nat>
    requires |p.funcs| == |p.callers|
  {
    RootsWhere(p, (fr: FuncFrame) => fr.isr && fr.priority == 1, |p.funcs|)
  }

  ghost predicate Apart(p: Program, a: set<nat>, b: set<nat>) {
    forall f: nat :: !(InContext(p, a, f) && InContext(p, b, f))
  }

  /** No context is entered from two of main, low and high. */
  ghost predicate ContextsApart(p: Program)
    requires |p.funcs| == |p.callers|
  {
    && Apart(p, MainRoots(p), LowRoots(p))
    && Apart(p, MainRoots(p), HighRoots(p))
    && Apart(p, LowRoots(p), HighRoots(p))
  }

  /** Every frame of the context ends at or below `a`. */
  ghost predicate EndsBelow(p: Program, base: map<nat, nat>, roots: set<nat>, a: nat)
    requires Valid(p)
  {
    forall f: nat :: InContext(p, roots, f) && f < |p.funcs| ==> Placed(p, base, f) && EndOf(p, base, f) <= a
  }

  ghost predicate StartsAbove(p: Program, base: map<nat, nat>, roots: set<nat>, a: nat) {
    forall f: nat :: InContext(p, roots, f) && f < |p.funcs| ==> f in base && a <= base[f]
  }

  ghost predicate Below(p: Program, base: map<nat, nat>, a: set<nat>, b: set<nat>)
    requires Valid(p)
  {
    exists cut: nat :: EndsBelow(p, base, a, cut) && StartsAbove(p, base, b, cut)
  }

  /** A carved area of `size` bytes at `at` lies between the frames below and those above. */
  ghost predicate Carved(p: Program, base: map<nat, nat>, at: Option<nat>, size: nat, below: set<nat>, above: set<nat>)
    requires Valid(p)
  {
    at.Some? ==> EndsBelow(p, base, below, at.value) && StartsAbove(p, base, above, at.value + size)
  }

  /** A lone high-priority handler on PIC18 is the one case whose save area is not kept clear. */
  predicate LoneHigh(p: Program)
    requires |p.funcs| == |p.callers|
  {
    p.d.core.Pic18? && LowRoots(p) == {} && HighRoots(p) != {}
  }

  ghost predicate Isolated(p: Program, l: Layout)
    requires Valid(p)
  {
    var main, low, high := MainRoots(p), LowRoots(p), HighRoots(p);
    && Below(p, l.base, main, low) && Below(p, l.base, main, high) && Below(p, l.base, low, high)
    && Carved(p, l.base, l.lowSave, LOW_SAVE_BYTES, main, low)
    && Carved(p, l.base, l.lowSave, LOW_SAVE_BYTES, {}, high)
    && Carved(p, l.base, l.save, ISR_SAVE_BYTES, main, low)
    && Carved(p, l.base, l.highSave, ISR_SAVE_BYTES, main, high)
    && Carved(p, l.base, l.highSave, ISR_SAVE_BYTES, low, high)
    && (l.lowSave.Some? && l.highSave.Some? ==> l.lowSave.value + LOW_SAVE_BYTES <= l.highSave.value)
    && (!LoneHigh(p) ==> Carved(p, l.base, l.save, ISR_SAVE_BYTES, main, high))
  }

  lemma {:induction false} BaseRises(p: Program, base: map<nat, nat>, q: seq<nat>)
    requires Valid(p) && Settled(p, base) && IsPath(p.edges, q)
    ensures q[|q| - 1] < |p.funcs| && q[0] in base && q[|q| - 1] in base && base[q[0]] <= base[q[|q| - 1]]
    decreases |q|
  {
    assert Placed(p, base, q[0]);
    if |q| > 1 {
      var h := q[..|q| - 1];
      forall k | 0 <= k < |h| - 1 ensures Edge(p.edges, h[k], h[k + 1]) { assert Edge(p.edges, q[k], q[k + 1]); }
      BaseRises(p, base, h);
      assert Edge(p.edges, q[|q| - 2], q[|q| - 1]);
      assert Placed(p, base, q[|q| - 1]);
      assert AboveCallers(p, base, q[|q| - 1], base[q[|q| - 1]]);
    }
  }

  lemma ContextAbove(p: Program, base: map<nat, nat>, roots: set<nat>, start: nat)
    requires Valid(p) && Settled(p, base) && forall r :: r in roots ==> r in base && start <= base[r]
    ensures StartsAbove(p, base, roots, start)
  {
    forall f: nat | InContext(p, roots, f) && f < |p.funcs| ensures f in base && start <= base[f] {
      var r: nat :| r in roots && Reaches(p.edges, r, f);
      var q :| PathFromTo(p.edges, q, r, f);
      BaseRises(p, base, q);
    }
  }

  /** Bases of a context that a later pass does not touch keep their ends. */
  lemma KeptBelow(p: Program, base: map<nat, nat>, base': map<nat, nat>, roots: set<nat>, other: set<nat>, a: nat)
    requires Valid(p) && EndsBelow(p, base, roots, a) && Apart(p, roots, other)
    requires forall f: nat :: f in base && !InContext(p, other, f) ==> f in base' && base'[f] == base[f]
    ensures EndsBelow(p, base', roots, a)
  {
    forall f: nat | InContext(p, roots, f) && f < |p.funcs| ensures Placed(p, base', f) && EndOf(p, base', f) <= a {
      assert !InContext(p, other, f);
    }
  }

  lemma KeptAbove(p: Program, base: map<nat, nat>, base': map<nat, nat>, roots: set<nat>, other: set<nat>, a: nat)
    requires StartsAbove(p, base, roots, a) && Apart(p, roots, other)
    requires forall f: nat :: f in base && !InContext(p, other, f) ==> f in base' && base'[f] == base[f]
    ensures StartsAbove(p, base', roots, a)
  {
    forall f: nat | InContext(p, roots, f) && f < |p.funcs| ensures f in base' && a <= base'[f] {
      assert !InContext(p, other, f);
    }
  }

  /** Where the save area of a lone handler ends: seven bytes past the main context. */
  ghost function SaveEnd(p: Program, start: nat): nat
    requires Valid(p) && MainBases(p, start).Some?
  {
    MainEndOf(p, start) + ISR_SAVE_BYTES
  }

  /** Some handler is an ordinary function, with a frame of its own when `framed`. */
  ghost predicate PlainHandler(p: Program, framed: bool)
    requires |p.funcs| == |p.callers|
  {
    exists r: nat :: r in HighRoots(p) && !p.funcs[r].routine && (framed ==> p.funcs[r].widths != [])
  }

  /** No frame of the high context shares a byte with the save area. */
  ghost predicate SaveClear(p: Program, l: Layout)
    requires Valid(p) && Settled(p, l.base) && l.save.Some?
  {
    forall f: nat :: InContext(p, HighRoots(p), f) && f < |p.funcs| && p.funcs[f].widths != [] ==>
      EndOf(p, l.base, f) <= l.save.value || l.save.value + ISR_SAVE_BYTES <= l.base[f]
  }

  /** Where the handler's frames start: past every frame of the main pass. */
  ghost function TopOf(p: Program, start: nat): nat
    requires Valid(p) && MainBases(p, start).Some?
  {
    HighestEnd(p, MainBases(p, start).value, UpTo(|p.funcs|), |p.funcs|)
  }

  /** `f`, based at that top, lands past the save area; only a routine is moved up from it. */
  ghost predicate Lands(p: Program, start: nat, f: nat)
    requires Valid(p) && MainBases(p, start).Some? && f < |p.funcs|
  {
    var b := RoundedBase(p, f, TopOf(p, start));
    b.Some? && SaveEnd(p, start) <= b.value
  }

  /** No function of the context above `f` has a frame. */
  ghost predicate BareAbove(p: Program, roots: set<nat>, f: nat) {
    forall c: nat :: c < |p.funcs| && c != f && InContext(p, roots, c) && Reaches(p.edges, c, f) ==>
      p.funcs[c].widths == []
  }

  /** One of the outermost frames of the context. */
  ghost predicate Outer(p: Program, roots: set<nat>, f: nat) {
    f < |p.funcs| && InContext(p, roots, f) && p.funcs[f].widths != [] && BareAbove(p, roots, f)
  }

  /** The lone handler's save area starts at the end of the main context. No frame starts below
      its end exactly when every handler lands past it, and no frame shares a byte with it exactly
      when every outermost frame does. For an ordinary handler, with a frame of its own for the
      bytes, that is when the main pass already placed some frame that ends past the area. */
  ghost predicate SaveGap(p: Program, start: nat, l: Layout)
    requires Valid(p) && MainBases(p, start).Some? && Settled(p, l.base) && l.save.Some?
  {
    var room := Reached(p, MainBases(p, start).value, SaveEnd(p, start));
    var carved := Carved(p, l.base, l.save, ISR_SAVE_BYTES, {}, HighRoots(p));
    && l.save.value == MainEndOf(p, start)
    && (carved <==> forall r: nat :: r in HighRoots(p) ==> Lands(p, start, r))
    && (SaveClear(p, l) <==> forall f: nat :: Outer(p, HighRoots(p), f) ==> Lands(p, start, f))
    && (PlainHandler(p, false) ==> (carved <==> room))
    && (PlainHandler(p, true) ==> (SaveClear(p, l) <==> room))
  }

  ghost predicate Reached(p: Program, base: map<nat, nat>, a: nat)
    requires Valid(p)
  {
    exists f: nat :: f < |p.funcs| && Placed(p, base, f) && a <= EndOf(p, base, f)
  }

  lemma InFuncs(p: Program, roots: set<nat>, ctx: set<nat>)
    requires Valid(p) && forall f: nat :: f in ctx <==> InContext(p, roots, f)
    ensures forall f :: f in ctx ==> f < |p.funcs|
  {
    forall f: nat | f in ctx ensures f < |p.funcs| {
      var r: nat :| r in roots && Reaches(p.edges, r, f);
      var q :| PathFromTo(p.edges, q, r, f);
      Slice(p.edges, q, |q| - 1, |q| - 1);
    }
  }

  /** Without low roots the low pass changes nothing. */
  lemma LowPassIdle(p: Program, base: map<nat, nat>, base': map<nat, nat>)
    requires Valid(p) && Settled(p, base)
    requires forall f: nat :: f in base && !InContext(p, {}, f) ==> f in base' && base'[f] == base[f]
    ensures forall f: nat :: f < |p.funcs| ==> Placed(p, base, f) && f in base' && base'[f] == base[f]
  {
    forall f: nat | f < |p.funcs| ensures Placed(p, base, f) && f in base' && base'[f] == base[f] {
    }
  }

  /** The three passes put the contexts and save areas one above the other. */
  lemma Isolation(p: Program, first: map<nat, nat>, mid: map<nat, nat>, l: Layout,
                  isrBase: nat, lowStart: nat, top: nat, highStart: nat)
    requires Valid(p) && ContextsApart(p) && Settled(p, mid) && Settled(p, l.base)
    requires EndsBelow(p, first, MainRoots(p), isrBase)
    requires forall f: nat :: f in first && !InContext(p, LowRoots(p), f) ==> f in mid && mid[f] == first[f]
    requires forall f: nat :: f in mid && !InContext(p, HighRoots(p), f) ==> f in l.base && l.base[f] == mid[f]
    requires forall r: nat :: r in LowRoots(p) ==> r in mid && lowStart <= mid[r]
    requires forall r: nat :: r in HighRoots(p) ==> r in l.base && highStart <= l.base[r]
    requires forall f: nat :: f < |p.funcs| ==> Placed(p, mid, f) && EndOf(p, mid, f) <= top
    requires isrBase <= lowStart && top <= highStart
    requires l.lowSave.Some? ==> LowRoots(p) != {} && l.lowSave.value == isrBase && lowStart == isrBase + LOW_SAVE_BYTES
    requires l.save.Some? ==> l.save.value == isrBase && lowStart == isrBase + ISR_SAVE_BYTES
    requires l.save.Some? ==> LoneHigh(p) || HighRoots(p) == {}
    requires l.highSave.Some? ==> l.lowSave.Some? && l.highSave.value == top && highStart == top + ISR_SAVE_BYTES
    ensures Isolated(p, l)
  {
    var main, low, high := MainRoots(p), LowRoots(p), HighRoots(p);
    KeptBelow(p, first, mid, main, low, isrBase);
    KeptBelow(p, mid, l.base, main, high, isrBase);
    ContextAbove(p, mid, low, lowStart);
    KeptAbove(p, mid, l.base, low, high, lowStart);
    ContextAbove(p, l.base, high, highStart);
    assert EndsBelow(p, mid, main, top) && EndsBelow(p, mid, low, top);
    KeptBelow(p, mid, l.base, main, high, top);
    KeptBelow(p, mid, l.base, low, high, top);
    if low != {} {
      var r :| r in low;
      assert Placed(p, mid, r) && EndOf(p, mid, r) <= top;
      SlotsInOrder(p.d, mid[r], p.funcs[r].widths);
      assert lowStart <= top;
    }
    assert StartsAbove(p, l.base, low, isrBase) && StartsAbove(p, l.base, high, top);
  }

  ghost function ContextOf(p: Program, roots: set<nat>): set<nat> {
    set f | 0 <= f < |p.funcs| && InContext(p, roots, f)
  }

  /** The highest frame end among the functions of `fs` below `n`. */
  ghost function HighestEnd(p: Program, base: map<nat, nat>, fs: set<nat>, n: nat): nat {
    if n == 0 then 0
    else
      var rest := HighestEnd(p, base, fs, n - 1);
      if n - 1 in fs && EndAt(p, base, n - 1).Some? then Max(rest, EndAt(p, base, n - 1).value) else rest
  }

  lemma {:induction false} HighestEndIs(p: Program, base: map<nat, nat>, fs: set<nat>, n: nat)
    ensures forall f :: f in fs && 0 <= f < n && EndAt(p, base, f).Some? ==>
      EndAt(p, base, f).value <= HighestEnd(p, base, fs, n)
    ensures HighestEnd(p, base, fs, n) == 0
      || exists f :: f in fs && 0 <= f < n && EndAt(p, base, f) == Some(HighestEnd(p, base, fs, n))
  {
    if n > 0 { HighestEndIs(p, base, fs, n - 1); }
  }

  /** The end of the main context: its highest frame end, or the region start when nothing runs
      outside interrupts. */
  ghost function MainEndOf(p: Program, start: nat): nat
    requires Valid(p) && MainBases(p, start).Some?
  {
    if MainRoots(p) == {} then start
    else HighestEnd(p, MainBases(p, start).value, ContextOf(p, MainRoots(p)), |p.funcs|)
  }

  method MainEnd(p: Program, base: map<nat, nat>, start: nat) returns (r: nat)
    requires Valid(p) && Settled(p, base) && MainBases(p, start) == Some(base)
    ensures r == MainEndOf(p, start) && EndsBelow(p, base, MainRoots(p), r)
    ensures MainRoots(p) != {} ==>
      exists f: nat :: f < |p.funcs| && InContext(p, MainRoots(p), f) && EndOf(p, base, f) == r
    ensures MainRoots(p) == {} ==> r == start
  {
    var ctx := ReachAll(p, MainRoots(p));
    InFuncs(p, MainRoots(p), ctx);
    assert ctx == ContextOf(p, MainRoots(p));
    if MainRoots(p) == {} {
      assert forall f: nat :: !InContext(p, MainRoots(p), f);
      return start;
    }
    r := MaxEnd(p, base, ctx, 0);
    HighestEndIs(p, base, ctx, |p.funcs|);
    var main :| main in MainRoots(p);
    assert InContext(p, MainRoots(p), main) by { assert PathFromTo(p.edges, [main], main, main); }
    assert EndOf(p, base, main) >= 0;
  }

  method TopEnd(p: Program, base: map<nat, nat>) returns (r: nat)
    requires Valid(p) && Settled(p, base) && |p.funcs| > 0
    ensures r == HighestEnd(p, base, UpTo(|p.funcs|), |p.funcs|)
    ensures forall f: nat :: f < |p.funcs| ==> Placed(p, base, f) && EndOf(p, base, f) <= r
    ensures forall a: nat :: a <= r <==> a == 0 || Reached(p, base, a)
  {
    var all := UpTo(|p.funcs|);
    r := MaxEnd(p, base, all, 0);
    HighestEndIs(p, base, all, |p.funcs|);
    forall a: nat ensures a <= r <==> a == 0 || Reached(p, base, a) {
      if 0 < a <= r {
        var f :| f in all && EndOf(p, base, f) == r;
        assert Placed(p, base, f);
      }
    }
  }

  lemma RootsAreRoots(p: Program)
    requires Valid(p)
    ensures |p.funcs| == |p.callers| && AreRoots(p, LowRoots(p)) && AreRoots(p, HighRoots(p))
  {
  }

  lemma RootsExist(p: Program)
    requires Valid(p) && LowRoots(p) + HighRoots(p) != {}
    ensures p.funcs != []
  {
    var r :| r in LowRoots(p) + HighRoots(p);
  }

  // ---- Where the outermost frames of a context start ---------------------------------

  /** The bases a region pass ends with are the ones the rules give from those very bases. */
  lemma {:induction false} RegionFixed(p: Program, base0: map<nat, nat>, roots: set<nat>, start: nat, k: nat, j: nat)
    requires Valid(p) && j < k <= |p.topo| && InContext(p, roots, p.topo[j])
    requires RegionUpTo(p, base0, roots, start, k).Some?
    ensures var base := RegionUpTo(p, base0, roots, start, k).value; var f := p.topo[j];
            f in base && BaseOf(p, base, f, p.dip != Off, start) == Some(base[f])
  {
    TopoFacts(p, k - 1);
    hide Valid, InContext, BaseOf;
    var f, g := p.topo[j], p.topo[k - 1];
    var before := RegionUpTo(p, base0, roots, start, k - 1).value;
    var base := RegionUpTo(p, base0, roots, start, k).value;
    if j < k - 1 { RegionFixed(p, base0, roots, start, k - 1, j); }
    assert SameCallers(p, before, base, f);
    SameBase(p, before, base, f, p.dip != Off, start);
  }

  /** Functions on a call path stand in the order. */
  lemma {:induction false} PathIndex(p: Program, q: seq<nat>, i: nat, j: nat)
    requires Valid(p) && IsPath(p.edges, q) && i < |p.topo| && j < |p.topo|
    requires p.topo[i] == q[0] && p.topo[j] == q[|q| - 1]
    ensures i <= j && (|q| > 1 ==> i < j)
    decreases |q|
  {
    if |q| > 1 {
      var n := |q| - 1;
      Slice(p.edges, q, 0, n - 1);
      assert Edge(p.edges, q[n - 1], q[n]);
      CallersAreEarlier(p, j, q[n - 1]);
      var c :| 0 <= c < j && p.topo[c] == q[n - 1];
      PathIndex(p, q[0..n], i, c);
    } else {
      TopoFacts(p, Max(i, j));
    }
  }

  /** A function of a context that is no root is called from within it. */
  lemma CallerInside(p: Program, roots: set<nat>, f: nat) returns (c: nat)
    requires Valid(p) && InContext(p, roots, f) && f < |p.funcs| && f !in roots
    ensures Edge(p.edges, c, f) && InContext(p, roots, c)
  {
    var r: nat :| r in roots && Reaches(p.edges, r, f);
    var q :| PathFromTo(p.edges, q, r, f);
    var n := |q| - 1;
    c := q[n - 1];
    assert Edge(p.edges, q[n - 1], q[n]);
    Slice(p.edges, q, 0, n - 1);
    assert Reaches(p.edges, r, c);
  }

  /** What is above a caller is above the function called. */
  lemma BareCaller(p: Program, roots: set<nat>, c: nat, f: nat)
    requires Valid(p) && f < |p.funcs| && Edge(p.edges, c, f) && InContext(p, roots, c) && BareAbove(p, roots, f)
    ensures c < |p.funcs| && p.funcs[c].widths == [] && BareAbove(p, roots, c)
  {
    var j := IndexOf(p, f);
    TopoFacts(p, j);
    assert PathFromTo(p.edges, [c], c, c);
    Snoc(p.edges, [c], c, c, f);
    forall b: nat | b < |p.funcs| && b != c && InContext(p, roots, b) && Reaches(p.edges, b, c)
      ensures p.funcs[b].widths == []
    {
      var q :| PathFromTo(p.edges, q, b, c);
      Snoc(p.edges, q, b, c, f);
      var i := IndexOf(p, b);
      PathIndex(p, q + [f], i, j);
    }
  }

  /** All the context's bases were derived from `top`, which is past every other frame. */
  ghost predicate Derived(p: Program, mid: map<nat, nat>, base: map<nat, nat>, roots: set<nat>, top: nat)
    requires Valid(p)
  {
    && Settled(p, base) && AreRoots(p, roots) && RegionBases(p, mid, roots, top) == Some(base)
    && (forall f: nat :: f < |p.funcs| && !InContext(p, roots, f) ==> EndOf(p, base, f) <= top)
    && (forall f :: 0 <= f < |p.funcs| ==> SitesCover(p, f))
  }

  /** With no frame above it in the context, a function is based at `top`, as far as rounding
      allows. */
  lemma {:induction false} AtTop(p: Program, mid: map<nat, nat>, base: map<nat, nat>, roots: set<nat>, top: nat, j: nat)
    requires Valid(p) && Derived(p, mid, base, roots, top) && j < |p.topo|
    requires InContext(p, roots, p.topo[j]) && BareAbove(p, roots, p.topo[j])
    ensures p.topo[j] in base && RoundedBase(p, p.topo[j], top) == Some(base[p.topo[j]])
    ensures p.funcs[p.topo[j]].widths == [] ==> base[p.topo[j]] == top
    decreases j
  {
    TopoFacts(p, j);
    var f := p.topo[j];
    RegionFixed(p, mid, roots, top, |p.topo|, j);
    hide Valid, InContext, BareAbove, Derived, KeptBase;
    forall c: nat | Edge(p.edges, c, f)
      ensures Placed(p, base, c) && EndOf(p, base, c) <= top
      ensures InContext(p, roots, c) ==> p.funcs[c].widths == [] && base[c] == top
    {
      DerivedPlaced(p, mid, base, roots, top, c, f);
      if InContext(p, roots, c) {
        BareCaller(p, roots, c, f);
        CallersAreEarlier(p, j, c);
        var i :| 0 <= i < j && p.topo[i] == c;
        AtTop(p, mid, base, roots, top, i);
      }
    }
    KeptAtTop(p, mid, base, roots, top, f);
    if p.funcs[f].widths == [] { BareRounds(p, f, top); }
  }

  lemma DerivedPlaced(p: Program, mid: map<nat, nat>, base: map<nat, nat>, roots: set<nat>, top: nat, c: nat, f: nat)
    requires Valid(p) && Derived(p, mid, base, roots, top) && Edge(p.edges, c, f)
    ensures Placed(p, base, c) && (!InContext(p, roots, c) ==> EndOf(p, base, c) <= top)
  {
    hide InContext, AboveCallers;
    assert c < |p.funcs|;
  }

  /** An empty frame is not moved. */
  lemma BareRounds(p: Program, f: nat, top: nat)
    requires f < |p.funcs| && p.funcs[f].widths == [] && RoundedBase(p, f, top).Some?
    ensures RoundedBase(p, f, top) == Some(top)
  {
    assert FrameEnd(p.d, top, []) == Some(top);
  }

  /** Callers that all end at `top` or below, one of the context exactly there: so does the rule,
      dip or no dip. */
  lemma KeptAtTop(p: Program, mid: map<nat, nat>, base: map<nat, nat>, roots: set<nat>, top: nat, f: nat)
    requires Valid(p) && Derived(p, mid, base, roots, top) && f < |p.funcs| && InContext(p, roots, f)
    requires forall c: nat :: Edge(p.edges, c, f) ==> Placed(p, base, c) && EndOf(p, base, c) <= top
    requires forall c: nat :: Edge(p.edges, c, f) && InContext(p, roots, c) ==>
      p.funcs[c].widths == [] && base[c] == top
    requires KeptBase(p, base, f, p.dip != Off, top).Some?
    ensures KeptBase(p, base, f, p.dip != Off, top) == Some(top)
  {
    hide Valid, InContext, AreRoots, SitesCover, Derived, Settled, CallersEnd, SitesHigh, AboveCallers;
    SameSizes(p);
    NoCallersNoSites(p, f);
    EndRuleIs(p, base, f, top);
    if p.callers[f] != [] {
      RootHasNone(p, mid, base, roots, top, f);
      var c := CallerInside(p, roots, f);
      BareEnd(p, base, c);
      assert EndRule(p, base, f, top) == Some(top);
      if p.sites[f] != [] { SitesAtTop(p, mid, base, roots, top, f, c); }
    }
  }

  lemma RootHasNone(p: Program, mid: map<nat, nat>, base: map<nat, nat>, roots: set<nat>, top: nat, f: nat)
    requires Valid(p) && Derived(p, mid, base, roots, top) && f < |p.funcs|
    ensures f in roots ==> p.callers[f] == []
  {
  }

  lemma BareEnd(p: Program, base: map<nat, nat>, c: nat)
    requires Placed(p, base, c) && p.funcs[c].widths == []
    ensures EndOf(p, base, c) == base[c]
  {
  }

  lemma SitesAtTop(p: Program, mid: map<nat, nat>, base: map<nat, nat>, roots: set<nat>, top: nat, f: nat, c: nat)
    requires Valid(p) && Derived(p, mid, base, roots, top) && f < |p.funcs| && p.sites[f] != []
    requires forall c: nat :: Edge(p.edges, c, f) ==> Placed(p, base, c) && EndOf(p, base, c) <= top
    requires Edge(p.edges, c, f) && p.funcs[c].widths == [] && base[c] == top
    ensures SitesHigh(p, base, f, |p.sites[f]|) == Some(top)
  {
    hide Valid, AboveCallers, Settled, SitesHigh, EndRule, InContext, AreRoots, RegionBases, FrameEnd, LiveHighAt;
    SameSizes(p);
    SitesHighIs(p, base, f, |p.sites[f]|);
    SitesHighLow(p, base, f, top);
    EndRuleIs(p, base, f, top);
    var n := CallerListed(p, f, c);
    assert SitesCover(p, f);
    var k :| 0 <= k < |p.sites[f]| && p.sites[f][k].caller == c;
    BareSite(p, base, p.sites[f][k]);
  }

  /** A call from a frameless function keeps nothing live but the base. */
  lemma BareSite(p: Program, base: map<nat, nat>, s: Site)
    requires Placed(p, base, s.caller) && p.funcs[s.caller].widths == []
    ensures SiteHigh(p, base, s) == Some(base[s.caller])
  {
    assert TopLive(p.funcs[s.caller], s, 0) == None;
  }

  /** Every framed function of the context is at or above one of the outermost ones. */
  lemma {:induction false} OuterAbove(p: Program, base: map<nat, nat>, roots: set<nat>, g: nat, j: nat) returns (f: nat)
    requires Valid(p) && Settled(p, base) && j < |p.topo| && p.topo[j] == g && g < |p.funcs|
    requires InContext(p, roots, g) && p.funcs[g].widths != []
    ensures Outer(p, roots, f) && f in base && g in base && base[f] <= base[g]
    decreases j
  {
    assert Placed(p, base, g);
    if BareAbove(p, roots, g) {
      f := g;
    } else {
      hide Settled, InContext;
      var c: nat :| c < |p.funcs| && c != g && InContext(p, roots, c) && Reaches(p.edges, c, g)
        && p.funcs[c].widths != [];
      var q :| PathFromTo(p.edges, q, c, g);
      var i := IndexOf(p, c);
      PathIndex(p, q, i, j);
      f := OuterAbove(p, base, roots, c, i);
      BaseRises(p, base, q);
    }
  }

  /** The bytes of the save area are clear exactly when the outermost frames land past it. */
  lemma OuterLand(p: Program, start: nat, mid: map<nat, nat>, l: Layout)
    requires Valid(p) && MainBases(p, start).Some? && Settled(p, l.base) && l.save == Some(MainEndOf(p, start))
    requires Derived(p, mid, l.base, HighRoots(p), TopOf(p, start)) && MainEndOf(p, start) <= TopOf(p, start)
    ensures SaveClear(p, l) <==> forall f: nat :: Outer(p, HighRoots(p), f) ==> Lands(p, start, f)
    ensures Carved(p, l.base, l.save, ISR_SAVE_BYTES, {}, HighRoots(p)) <==>
      forall r: nat :: r in HighRoots(p) ==> Lands(p, start, r)
  {
    hide MainBases, MainEndOf, TopOf, InContext, Derived, HighRoots, Valid, Settled;
    RootsAreRoots(p);
    var high, top := HighRoots(p), TopOf(p, start);
    forall f: nat | Outer(p, high, f)
      ensures f in l.base && RoundedBase(p, f, top) == Some(l.base[f]) && Placed(p, l.base, f)
      ensures top <= l.base[f] < EndOf(p, l.base, f) && InContext(p, high, f)
    {
      hide SaveClear, Carved;
      OuterIs(p, start, mid, l, f);
    }
    RootsLand(p, start, mid, l);
    if forall f: nat :: Outer(p, high, f) ==> Lands(p, start, f) {
      forall g: nat | InContext(p, high, g) && g < |p.funcs| && p.funcs[g].widths != []
        ensures Placed(p, l.base, g) && l.save.value + ISR_SAVE_BYTES <= l.base[g]
      {
        hide SaveClear, Carved;
        SettledPlaced(p, l.base, g);
        var j := IndexOf(p, g);
        var f := OuterAbove(p, l.base, high, g, j);
        assert Lands(p, start, f);
      }
    }
  }

  lemma SettledPlaced(p: Program, base: map<nat, nat>, f: nat)
    requires Valid(p) && Settled(p, base) && f < |p.funcs|
    ensures Placed(p, base, f)
  {
  }

  lemma OuterIs(p: Program, start: nat, mid: map<nat, nat>, l: Layout, f: nat)
    requires Valid(p) && MainBases(p, start).Some? && Settled(p, l.base)
    requires Derived(p, mid, l.base, HighRoots(p), TopOf(p, start)) && Outer(p, HighRoots(p), f)
    ensures f in l.base && RoundedBase(p, f, TopOf(p, start)) == Some(l.base[f]) && Placed(p, l.base, f)
    ensures TopOf(p, start) <= l.base[f] < EndOf(p, l.base, f) && InContext(p, HighRoots(p), f)
  {
    hide MainBases, InContext, Derived, HighRoots, BareAbove, TopOf;
    var j := IndexOf(p, f);
    AtTop(p, mid, l.base, HighRoots(p), TopOf(p, start), j);
    assert Placed(p, l.base, f);
    FrameGrows(p, l.base, f);
    RoundsUp(p, f, TopOf(p, start));
  }

  lemma RoundsUp(p: Program, f: nat, b: nat)
    requires Valid(p) && f < |p.funcs| && RoundedBase(p, f, b).Some?
    ensures RoundedBase(p, f, b).value >= b
  {
    if p.funcs[f].widths == [] {
      BareRounds(p, f, b);
    } else if p.funcs[f].routine && !p.d.core.PicBaseline? {
      assert ValidFrame(p.funcs[f]);
      RoutineStaysInOneBank(p.d, b, p.funcs[f].widths);
    }
  }

  /** The handlers themselves start where rounding puts `top`. */
  lemma RootsLand(p: Program, start: nat, mid: map<nat, nat>, l: Layout)
    requires Valid(p) && MainBases(p, start).Some? && Settled(p, l.base) && l.save == Some(MainEndOf(p, start))
    requires Derived(p, mid, l.base, HighRoots(p), TopOf(p, start))
    ensures Carved(p, l.base, l.save, ISR_SAVE_BYTES, {}, HighRoots(p)) <==>
      forall r: nat :: r in HighRoots(p) ==> Lands(p, start, r)
  {
    hide MainBases, MainEndOf, TopOf, HighRoots, InContext, Derived, Settled, Valid, Reaches;
    RootsAreRoots(p);
    var high, top := HighRoots(p), TopOf(p, start);
    forall r: nat | r in high
      ensures r < |p.funcs| && r in l.base && RoundedBase(p, r, top) == Some(l.base[r]) && InContext(p, high, r)
    {
      RootAtTop(p, mid, l.base, high, top, r);
    }
    if forall r: nat :: r in high ==> Lands(p, start, r) {
      ContextAbove(p, l.base, high, SaveEnd(p, start));
    }
    NothingBelow(p, l.base, l.save.value);
  }

  lemma NothingBelow(p: Program, base: map<nat, nat>, a: nat)
    requires Valid(p)
    ensures EndsBelow(p, base, {}, a)
  {
  }

  lemma RootAtTop(p: Program, mid: map<nat, nat>, base: map<nat, nat>, roots: set<nat>, top: nat, r: nat)
    requires Valid(p) && Derived(p, mid, base, roots, top) && r in roots
    ensures r < |p.funcs| && r in base && RoundedBase(p, r, top) == Some(base[r]) && InContext(p, roots, r)
  {
    assert AreRoots(p, roots) && r < |p.funcs|;
    hide Derived, AreRoots;
    assert PathFromTo(p.edges, [r], r, r);
    var j := IndexOf(p, r);
    assert BareAbove(p, roots, r) by { RootIsFirst(p, mid, base, roots, top, r); }
    hide InContext, BareAbove;
    AtTop(p, mid, base, roots, top, j);
  }

  lemma RootIsFirst(p: Program, mid: map<nat, nat>, base: map<nat, nat>, roots: set<nat>, top: nat, r: nat)
    requires Valid(p) && Derived(p, mid, base, roots, top) && r in roots
    ensures BareAbove(p, roots, r)
  {
    assert AreRoots(p, roots);
    hide InContext, Derived;
    forall c: nat | c < |p.funcs| && c != r && Reaches(p.edges, c, r) ensures false {
      var q :| PathFromTo(p.edges, q, c, r);
      assert Edge(p.edges, q[|q| - 2], q[|q| - 1]);
      var k := CallerListed(p, r, q[|q| - 2]);
    }
  }

  // ---- The lone handler --------------------------------------------------------------

  lemma {:induction false} SameHighest(p: Program, b1: map<nat, nat>, b2: map<nat, nat>, fs: set<nat>, n: nat)
    requires forall f: nat :: f < n ==> EndAt(p, b1, f) == EndAt(p, b2, f)
    ensures HighestEnd(p, b1, fs, n) == HighestEnd(p, b2, fs, n)
  {
    hide EndAt;
    if n > 0 { SameHighest(p, b1, b2, fs, n - 1); }
  }

  /** Without low handlers nothing moved since the main pass. */
  lemma TopIs(p: Program, start: nat, mid: map<nat, nat>)
    requires Valid(p) && LoneHigh(p) && MainBases(p, start).Some? && Settled(p, MainBases(p, start).value)
    requires forall f: nat :: f in MainBases(p, start).value && !InContext(p, LowRoots(p), f) ==>
      f in mid && mid[f] == MainBases(p, start).value[f]
    ensures TopOf(p, start) == HighestEnd(p, mid, UpTo(|p.funcs|), |p.funcs|)
  {
    hide MainBases, AboveCallers;
    LowPassIdle(p, MainBases(p, start).value, mid);
    SameHighest(p, MainBases(p, start).value, mid, UpTo(|p.funcs|), |p.funcs|);
  }

  /** The pass over the high context derives it from `top`. */
  lemma HighDerived(p: Program, mid: map<nat, nat>, base: map<nat, nat>, top: nat)
    requires Valid(p) && Settled(p, mid) && Settled(p, base) && RegionBases(p, mid, HighRoots(p), top) == Some(base)
    requires forall f: nat :: f < |p.funcs| ==> Placed(p, mid, f) && EndOf(p, mid, f) <= top
    requires forall f: nat :: f in mid && !InContext(p, HighRoots(p), f) ==> f in base && base[f] == mid[f]
    requires forall f :: 0 <= f < |p.funcs| ==> SitesCover(p, f)
    ensures Derived(p, mid, base, HighRoots(p), top)
  {
    RootsAreRoots(p);
    hide AboveCallers, InContext, HighRoots, SitesCover, AreRoots, RegionBases;
    forall f: nat | f < |p.funcs| && !InContext(p, HighRoots(p), f) ensures EndOf(p, base, f) <= top {
      assert Placed(p, mid, f) && Placed(p, base, f);
    }
  }

  lemma LoneHighGap(p: Program, start: nat, mid: map<nat, nat>, l: Layout)
    requires Valid(p) && LoneHigh(p) && MainBases(p, start).Some? && Settled(p, MainBases(p, start).value)
    requires Settled(p, mid) && Settled(p, l.base) && l.save == Some(MainEndOf(p, start))
    requires Derived(p, mid, l.base, HighRoots(p), TopOf(p, start)) && MainEndOf(p, start) <= TopOf(p, start)
    ensures SaveGap(p, start, l)
  {
    hide MainBases, MainEndOf, Derived, Settled, InContext, LoneHigh, HighRoots;
    OuterLand(p, start, mid, l);
    RoomIs(p, start);
    var high := HighRoots(p);
    var room := Reached(p, MainBases(p, start).value, SaveEnd(p, start));
    forall r: nat | r in high ensures r < |p.funcs| && InContext(p, high, r) && (room ==> Lands(p, start, r))
      ensures p.funcs[r].widths != [] ==> Outer(p, high, r)
      ensures !p.funcs[r].routine && Lands(p, start, r) ==> room
    {
      RootAtTop(p, mid, l.base, high, TopOf(p, start), r);
      RootIsFirst(p, mid, l.base, high, TopOf(p, start), r);
      RoundsUp(p, r, TopOf(p, start));
    }
    forall f: nat | Outer(p, high, f) && room ensures Lands(p, start, f) {
      OuterIs(p, start, mid, l, f);
    }
  }

  /** Past the save area, or not: the top of the main pass is one of its frame ends. */
  lemma RoomIs(p: Program, start: nat)
    requires Valid(p) && MainBases(p, start).Some? && Settled(p, MainBases(p, start).value)
    ensures SaveEnd(p, start) <= TopOf(p, start) <==> Reached(p, MainBases(p, start).value, SaveEnd(p, start))
  {
    hide MainBases, MainEndOf, AboveCallers;
    var first := MainBases(p, start).value;
    HighestEndIs(p, first, UpTo(|p.funcs|), |p.funcs|);
    if SaveEnd(p, start) <= TopOf(p, start) {
      var f :| f in UpTo(|p.funcs|) && 0 <= f < |p.funcs| && EndAt(p, first, f) == Some(TopOf(p, start));
      assert Placed(p, first, f) && EndOf(p, first, f) == TopOf(p, start);
    }
    if Reached(p, first, SaveEnd(p, start)) {
      var f: nat :| f < |p.funcs| && Placed(p, first, f) && SaveEnd(p, start) <= EndOf(p, first, f);
      assert EndAt(p, first, f) == Some(EndOf(p, first, f));
    }
  }

  lemma FrameGrows(p: Program, base: map<nat, nat>, f: nat)
    requires Valid(p) && Placed(p, base, f) && p.funcs[f].widths != []
    ensures base[f] < EndOf(p, base, f)
  {
    SlotsInOrder(p.d, base[f], p.funcs[f].widths);
  }

  /** For a lone handler the highest frame is not below the end of the main context. */
  lemma MainBelowTop(p: Program, start: nat, mid: map<nat, nat>, top: nat)
    requires Valid(p) && LoneHigh(p) && MainBases(p, start).Some? && Settled(p, MainBases(p, start).value)
    requires Settled(p, mid) && forall f: nat :: f < |p.funcs| ==> Placed(p, mid, f) && EndOf(p, mid, f) <= top
    requires forall f: nat :: f in MainBases(p, start).value && !InContext(p, LowRoots(p), f) ==>
      f in mid && mid[f] == MainBases(p, start).value[f]
    requires forall f: nat :: f in HighRoots(p) ==>
      f in MainBases(p, start).value && MainBases(p, start).value[f] >= start
    ensures MainEndOf(p, start) <= top
  {
    var first := MainBases(p, start).value;
    LowPassIdle(p, first, mid);
    hide Settled, AboveCallers, InContext, LowRoots, MainRoots, LoneHigh;
    if MainRoots(p) == {} {
      var r :| r in HighRoots(p);
      assert Placed(p, mid, r);
      SlotsInOrder(p.d, mid[r], p.funcs[r].widths);
    } else {
      HighestEndIs(p, first, ContextOf(p, MainRoots(p)), |p.funcs|);
    }
  }

  /** The three passes, and the save areas carved between them. */
  ghost function LayoutOf(p: Program, start: nat): Option<Layout>
    requires Valid(p)
  {
    match MainBases(p, start)
    case None => None
    case Some(m) =>
      if LowRoots(p) + HighRoots(p) == {} then Some(Layout(m, None, None, None))
        else ContextLayout(p, m, MainEndOf(p, start))
  }

  ghost function ContextLayout(p: Program, m: map<nat, nat>, isrBase: nat): Option<Layout>
    requires Valid(p)
  {
    var low, high := LowRoots(p), HighRoots(p);
    match RegionBases(p, m, low, isrBase + if Both(p) then LOW_SAVE_BYTES else if Lone(p) then ISR_SAVE_BYTES else 0)
    case None => None
    case Some(a) =>
      var top := HighestEnd(p, a, UpTo(|p.funcs|), |p.funcs|);
      var carve := Both(p) && p.d.core.Pic18?;
      match RegionBases(p, a, high, if carve then top + ISR_SAVE_BYTES else top)
      case None => None
      case Some(b) =>
        Some(Layout(b, if Both(p) then Some(isrBase) else None, if Lone(p) then Some(isrBase) else None,
                    if carve then Some(top) else None))
  }

  /** All bases. `None` when one of the passes has a function without a place. */
  method AssignBases(p: Program, start: nat) returns (r: Option<Layout>)
    requires Valid(p) && forall f :: 0 <= f < |p.funcs| ==> SitesCover(p, f)
    ensures r == LayoutOf(p, start)
    ensures r.Some? ==> Settled(p, r.value.base)
    ensures r.Some? && ContextsApart(p) && LowRoots(p) + HighRoots(p) != {} ==> Isolated(p, r.value)
    ensures r.Some? && LoneHigh(p) ==> r.value.save.Some? && SaveGap(p, start, r.value)
  {
    var m := AssignMain(p, start);
    if m.None? { return None; }
    assert forall f: nat :: f in HighRoots(p) ==> f in m.value && m.value[f] >= start;
    if LowRoots(p) + HighRoots(p) == {} { return Some(Layout(m.value, None, None, None)); }
    hide Settled, ContextsApart, Isolated, SaveGap, LowRoots, HighRoots, Valid, MainBases;
    var isrBase := MainEnd(p, m.value, start);
    r := AssignContexts(p, m.value, start, isrBase);
  }

  /** Whether both priorities have handlers, and whether a PIC18 handler is alone. */
  predicate Both(p: Program)
    requires |p.funcs| == |p.callers|
  {
    LowRoots(p) != {} && HighRoots(p) != {}
  }

  predicate Lone(p: Program)
    requires |p.funcs| == |p.callers|
  {
    !Both(p) && p.d.core.Pic18?
  }

  method AssignContexts(p: Program, m: map<nat, nat>, start: nat, isrBase: nat) returns (r: Option<Layout>)
    requires Valid(p) && forall f :: 0 <= f < |p.funcs| ==> SitesCover(p, f)
    requires MainPassed(p, start, m, isrBase) && Settled(p, m)
    ensures r == ContextLayout(p, m, isrBase)
    ensures r.Some? ==> Settled(p, r.value.base)
    ensures r.Some? && ContextsApart(p) ==> Isolated(p, r.value)
    ensures r.Some? && LoneHigh(p) ==> r.value.save.Some? && SaveGap(p, start, r.value)
  {
    hide Settled, ContextsApart, Isolated, SaveGap, MainPassed, InContext, LowRoots, HighRoots, AreRoots, Valid;
    hide RegionBases, RegionStuckAt, Both, Lone, LoneHigh, SitesCover, HighestEnd;
    RootsAreRoots(p);
    var lowStart := isrBase + if Both(p) then LOW_SAVE_BYTES else if Lone(p) then ISR_SAVE_BYTES else 0;
    var a := AssignRegion(p, m, LowRoots(p), lowStart);
    if a.None? { return None; }
    r := AssignHigh(p, m, start, isrBase, a.value, lowStart);
  }

  ghost predicate MainPassed(p: Program, start: nat, m: map<nat, nat>, isrBase: nat)
    requires Valid(p)
  {
    && MainBases(p, start) == Some(m) && Settled(p, m)
    && LowRoots(p) + HighRoots(p) != {}
    && isrBase == MainEndOf(p, start) && EndsBelow(p, m, MainRoots(p), isrBase)
    && (forall f: nat :: f in HighRoots(p) ==> f in m && m[f] >= start)
  }

  ghost predicate LowPassed(p: Program, m: map<nat, nat>, mid: map<nat, nat>, lowStart: nat)
    requires Valid(p)
  {
    && Settled(p, mid) && RegionBases(p, m, LowRoots(p), lowStart) == Some(mid)
    && (forall f: nat :: f in m && !InContext(p, LowRoots(p), f) ==> f in mid && mid[f] == m[f])
    && (forall f: nat :: f in LowRoots(p) ==> f in mid && mid[f] >= lowStart)
  }

  method AssignHigh(p: Program, ghost m: map<nat, nat>, ghost start: nat, isrBase: nat, mid: map<nat, nat>,
                    ghost lowStart: nat)
    returns (r: Option<Layout>)
    requires Valid(p) && forall f :: 0 <= f < |p.funcs| ==> SitesCover(p, f)
    requires MainPassed(p, start, m, isrBase) && LowPassed(p, m, mid, lowStart)
    requires lowStart == isrBase + if Both(p) then LOW_SAVE_BYTES else if Lone(p) then ISR_SAVE_BYTES else 0
    ensures r == ContextLayout(p, m, isrBase)
    ensures r.Some? ==> Settled(p, r.value.base)
    ensures r.Some? && ContextsApart(p) ==> Isolated(p, r.value)
    ensures r.Some? && LoneHigh(p) ==> r.value.save.Some? && SaveGap(p, start, r.value)
  {
    hide Settled, ContextsApart, Isolated, SaveGap, EndsBelow, InContext, Reached, LowRoots, HighRoots, AreRoots, Valid;
    hide MainBases, RegionBases, MainEndOf, RegionStuckAt, HighestEnd, MainRoots, SitesCover;
    RootsAreRoots(p);
    RootsExist(p);
    var top := TopEnd(p, mid);
    var carve := Both(p) && p.d.core.Pic18?;
    var highStart := if carve then top + ISR_SAVE_BYTES else top;
    var b := AssignRegion(p, mid, HighRoots(p), highStart);
    if b.None? { return None; }
    var l := Layout(b.value, if Both(p) then Some(isrBase) else None, if Lone(p) then Some(isrBase) else None,
                    if carve then Some(top) else None);
    r := Some(l);
    if ContextsApart(p) {
      Isolation(p, m, mid, l, isrBase, lowStart, top, highStart);
    }
    if LoneHigh(p) {
      MainBelowTop(p, start, mid, top);
      TopIs(p, start, mid);
      HighDerived(p, mid, b.value, top);
      LoneHighGap(p, start, mid, l);
    }
  }

  // ---- Which save areas there are, and where the handlers start ----------------------

  /** Nothing calls `r`, and it serves the high or the low priority. */
  ghost predicate Handler(p: Program, r: nat, high: bool)
    requires |p.funcs| == |p.callers|
  {
    r < |p.funcs| && p.callers[r] == [] && p.funcs[r].isr && (p.funcs[r].priority == 1 <==> high)
  }

  ghost predicate Serves(p: Program, high: bool)
    requires |p.funcs| == |p.callers|
  {
    exists r: nat :: Handler(p, r, high)
  }

  /** With both priorities 19 bytes behind the main context, and on PIC18 another 7 below the high
      handlers; with one priority 7 bytes on PIC18 and none elsewhere. The handlers start right
      behind their area, unless a routine is moved up from there. */
  ghost predicate SaveAreas(p: Program, isrBase: nat, l: Layout)
    requires |p.funcs| == |p.callers|
  {
    var both, any := Serves(p, false) && Serves(p, true), Serves(p, false) || Serves(p, true);
    && l.lowSave == (if both then Some(isrBase) else None)
    && l.save == (if any && !both && p.d.core.Pic18? then Some(isrBase) else None)
    && (l.highSave.Some? <==> both && p.d.core.Pic18?)
    && (forall r: nat :: Handler(p, r, false) && !p.funcs[r].routine ==>
          r in l.base && l.base[r] == isrBase + if both then 19 else if p.d.core.Pic18? then 7 else 0)
    && (forall r: nat :: Handler(p, r, true) && !p.funcs[r].routine && l.highSave.Some? ==>
          r in l.base && l.base[r] == l.highSave.value + 7)
  }

  lemma RootsServe(p: Program)
    requires |p.funcs| == |p.callers|
    ensures forall r: nat :: Handler(p, r, false) <==> r in LowRoots(p)
    ensures forall r: nat :: Handler(p, r, true) <==> r in HighRoots(p)
    ensures Serves(p, false) <==> LowRoots(p) != {}
    ensures Serves(p, true) <==> HighRoots(p) != {}
  {
    if LowRoots(p) != {} { var r :| r in LowRoots(p); assert Handler(p, r, false); }
    if HighRoots(p) != {} { var r :| r in HighRoots(p); assert Handler(p, r, true); }
  }

  /** Every region pass starts its plain roots at the region start. */
  lemma RootStarts(p: Program, base0: map<nat, nat>, roots: set<nat>, start: nat, r: nat)
    requires Valid(p) && RegionBases(p, base0, roots, start).Some?
    requires r in roots && r < |p.funcs| && p.callers[r] == [] && !p.funcs[r].routine
    ensures var base := RegionBases(p, base0, roots, start).value; r in base && base[r] == start
  {
    var j := IndexOf(p, r);
    assert PathFromTo(p.edges, [r], r, r);
    RegionFixed(p, base0, roots, start, |p.topo|, j);
    hide RegionUpTo, InContext, Valid;
    var base := RegionBases(p, base0, roots, start).value;
    NoCallersKept(p, base, r, p.dip != Off, start);
  }

  /** A function that nothing calls is in no context but its own. */
  lemma RootAlone(p: Program, roots: set<nat>, r: nat)
    requires Valid(p) && r < |p.funcs| && p.callers[r] == [] && InContext(p, roots, r)
    ensures r in roots
  {
    var q: nat :| q in roots && Reaches(p.edges, q, r);
    if q != r { LastStep(p.edges, q, r); }
  }

  lemma LastStep(g: Graph, q: nat, r: nat)
    requires Reaches(g, q, r) && q != r
    ensures exists c: nat :: Edge(g, c, r)
  {
    var path :| PathFromTo(g, path, q, r);
    assert Edge(g, path[|path| - 2], path[|path| - 1]);
  }

  lemma {:induction false} RegionLeaves(p: Program, base0: map<nat, nat>, roots: set<nat>, start: nat, k: nat, f: nat)
    requires Valid(p) && k <= |p.topo| && f in base0 && !InContext(p, roots, f)
    requires RegionUpTo(p, base0, roots, start, k).Some?
    ensures var base := RegionUpTo(p, base0, roots, start, k).value; f in base && base[f] == base0[f]
  {
    hide Valid, InContext, BaseOf;
    if k > 0 { RegionLeaves(p, base0, roots, start, k - 1, f); }
  }

  /** Low handlers start at the low region, whatever the high pass does behind it. */
  lemma LowStarts(p: Program, m: map<nat, nat>, lowStart: nat, highStart: nat, r: nat)
    requires Valid(p) && Handler(p, r, false) && !p.funcs[r].routine
    requires RegionBases(p, m, LowRoots(p), lowStart).Some?
    requires RegionBases(p, RegionBases(p, m, LowRoots(p), lowStart).value, HighRoots(p), highStart).Some?
    ensures var a := RegionBases(p, m, LowRoots(p), lowStart).value;
            var base := RegionBases(p, a, HighRoots(p), highStart).value; r in base && base[r] == lowStart
  {
    RootsServe(p);
    hide Valid, InContext, RegionUpTo, LowRoots, HighRoots, Serves;
    var low, high := LowRoots(p), HighRoots(p);
    var a := RegionBases(p, m, low, lowStart).value;
    RootStarts(p, m, low, lowStart, r);
    if InContext(p, high, r) { RootAlone(p, high, r); }
    RegionLeaves(p, a, high, highStart, |p.topo|, r);
  }

  lemma HighStarts(p: Program, a: map<nat, nat>, highStart: nat, r: nat)
    requires Valid(p) && Handler(p, r, true) && !p.funcs[r].routine && RegionBases(p, a, HighRoots(p), highStart).Some?
    ensures var base := RegionBases(p, a, HighRoots(p), highStart).value; r in base && base[r] == highStart
  {
    RootsServe(p);
    hide Valid, InContext, RegionUpTo, LowRoots, HighRoots, Serves;
    RootStarts(p, a, HighRoots(p), highStart, r);
  }

  /** The layout of every program with a handler has these areas. */
  lemma AreasAre(p: Program, start: nat, l: Layout)
    requires Valid(p) && LayoutOf(p, start) == Some(l) && (Serves(p, false) || Serves(p, true))
    ensures SaveAreas(p, MainEndOf(p, start), l)
  {
    hide Valid, RegionBases, MainBases, MainEndOf, HighestEnd, LowRoots, HighRoots, Serves;
    SameSizes(p);
    RootsServe(p);
    var isrBase, m := MainEndOf(p, start), MainBases(p, start).value;
    var lowStart := isrBase + if Both(p) then LOW_SAVE_BYTES else if Lone(p) then ISR_SAVE_BYTES else 0;
    var a := RegionBases(p, m, LowRoots(p), lowStart).value;
    var top := HighestEnd(p, a, UpTo(|p.funcs|), |p.funcs|);
    var highStart := if Both(p) && p.d.core.Pic18? then top + ISR_SAVE_BYTES else top;
    forall r: nat | Handler(p, r, false) && !p.funcs[r].routine ensures r in l.base && l.base[r] == lowStart {
      LowStarts(p, m, lowStart, highStart, r);
    }
    forall r: nat | Handler(p, r, true) && !p.funcs[r].routine ensures r in l.base && l.base[r] == highStart {
      HighStarts(p, a, highStart, r);
    }
  }

  // ---- A program whose save area is not kept clear -----------------------------------

  /** A PIC18 program with one function: a high-priority handler with one byte of frame. */
  function LoneHandler(): Program {
    var d := Device(Pic18, [Region(0, 0xFF)], None, None, None, None);
    Program(d, [FuncFrame([1], map[], [0], false, false, true, 1)], [[]], [[]], [[]], [0], Off)
  }

  /** From address 0 its save area is bytes 0 to 6, and its frame is byte 1. */
  lemma LoneHandlerOverlaps()
    ensures Valid(LoneHandler()) && LoneHigh(LoneHandler()) && ContextsApart(LoneHandler())
    ensures forall f :: 0 <= f < |LoneHandler().funcs| ==> SitesCover(LoneHandler(), f)
    ensures LayoutOf(LoneHandler(), 0) == Some(Layout(map[0 := 1], None, Some(0), None))
    ensures EndAt(LoneHandler(), map[0 := 1], 0) == Some(2)
    ensures InContext(LoneHandler(), HighRoots(LoneHandler()), 0)
  {
    var p := LoneHandler();
    LoneHandlerValid();
    LoneHandlerRoots();
    OneByteFrame(p.d, 0);
    OneByteFrame(p.d, 1);
    assert MainUpTo(p, 0, 0) == Some(map[]);
    assert MainUpTo(p, 0, 1) == Some(map[0 := 0]);
    assert RegionUpTo(p, map[0 := 0], {}, ISR_SAVE_BYTES, 0) == Some(map[0 := 0]);
    assert !InContext(p, {}, 0);
    assert RegionUpTo(p, map[0 := 0], {}, ISR_SAVE_BYTES, 1) == Some(map[0 := 0]);
    assert HighestEnd(p, map[0 := 0], UpTo(1), 0) == 0;
    assert HighestEnd(p, map[0 := 0], UpTo(1), 1) == 1;
    assert RegionUpTo(p, map[0 := 0], {0}, 1, 0) == Some(map[0 := 0]);
    assert map[0 := 0][0 := 1] == map[0 := 1];
    assert RegionUpTo(p, map[0 := 0], {0}, 1, 1) == Some(map[0 := 1]);
  }

  lemma LoneHandlerRoots()
    ensures MainRoots(LoneHandler()) == {} && LowRoots(LoneHandler()) == {} && HighRoots(LoneHandler()) == {0}
    ensures InContext(LoneHandler(), {0}, 0)
  {
    var p := LoneHandler();
    assert p.funcs[0].isr && p.callers[0] == [] && p.funcs[0].priority == 1;
    assert PathFromTo(p.edges, [0], 0, 0);
    assert forall f: nat :: f in HighRoots(p) <==> f == 0;
  }

  lemma OneByteFrame(d: Device, b: nat)
    requires d.banks == [Region(0, 0xFF)] && b < 0xFF
    ensures FrameEnd(d, b, [1]) == Some(b + 1)
  {
    assert Place(d, b, 1) == Some(b);
    assert [1][1..] == [] && FrameEnd(d, b + 1, []) == Some(b + 1);
  }

  lemma LoneHandlerValid()
    ensures Valid(LoneHandler())
  {
    var p := LoneHandler();
    assert p.topo[0] == 0 && forall f: nat :: f < |p.funcs| ==> f in p.topo;
  }
}
