/** Block liveness as a backward fixpoint, and the linear range each value occupies. */
module LiveRanges {
  import opened Points
  import opened Ir
  import opened Cfg
  import opened Liveness

  // ---- Block liveness ----------------------------------------------------------------

  /** Names read in block `b` before (or at) their own definition there. */
  function UseBeforeDef(defs: map<Name, Def>, uses: map<Name, set<Point>>, b: nat): (s: set<Name>)
    ensures forall v :: v in s <==> exists q :: ReadEarly(defs, uses, b, v, q)
  {
    set v | v in uses && exists q :: q in uses[v] && ReadEarly(defs, uses, b, v, q)
  }

  predicate ReadEarly(defs: map<Name, Def>, uses: map<Name, set<Point>>, b: nat, v: Name, q: Point) {
    && Has(uses, v, q)
    && q.block == b
    && (v !in defs || defs[v].at.block != b || q.pos <= defs[v].at.pos)
  }

  function DefSet(defs: map<Name, Def>, b: nat): set<Name> {
    set v | v in defs && defs[v].at.block == b
  }

  /** Some path from the start of `b` reads `v` before redefining it. */
  ghost predicate PathLive(g: Graph, gen: seq<set<Name>>, kill: seq<set<Name>>, b: nat, v: Name)
    requires |gen| == |kill| == |g|
  {
    exists p :: LivePath(g, gen, kill, p, v) && p[0] == b
  }

  ghost predicate LivePath(g: Graph, gen: seq<set<Name>>, kill: seq<set<Name>>, p: seq<nat>, v: Name)
    requires |gen| == |kill| == |g|
  {
    && IsPath(g, p)
    && (forall k :: 0 <= k < |p| ==> p[k] < |g|)
    && v in gen[p[|p| - 1]]
    && forall k :: 0 <= k < |p| - 1 ==> v !in kill[p[k]]
  }

  ghost predicate Equations(g: Graph, gen: seq<set<Name>>, kill: seq<set<Name>>,
                            liveIn: seq<set<Name>>, liveOut: seq<set<Name>>)
    requires |gen| == |kill| == |liveIn| == |liveOut| == |g| && Closed(g)
  {
    forall b :: 0 <= b < |g| ==> EquationAt(g, gen, kill, liveIn, liveOut, b)
  }

  ghost predicate EquationAt(g: Graph, gen: seq<set<Name>>, kill: seq<set<Name>>,
                             liveIn: seq<set<Name>>, liveOut: seq<set<Name>>, b: nat)
    requires |gen| == |kill| == |liveIn| == |liveOut| == |g| && Closed(g) && b < |g|
  {
    && (forall v :: v in liveOut[b] <==> FromSucc(g[b], liveIn, v))
    && liveIn[b] == gen[b] + (liveOut[b] - kill[b])
  }

  ghost predicate FromSucc(succs: seq<nat>, liveIn: seq<set<Name>>, v: Name)
    requires forall k :: 0 <= k < |succs| ==> succs[k] < |liveIn|
  {
    exists k :: 0 <= k < |succs| && v in liveIn[succs[k]]
  }

  method JoinSuccs(succs: seq<nat>, liveIn: seq<set<Name>>) returns (r: set<Name>)
    requires forall k :: 0 <= k < |succs| ==> succs[k] < |liveIn|
    ensures forall v :: v in r <==> FromSucc(succs, liveIn, v)
  {
    r := {};
    for k := 0 to |succs|
      invariant forall v :: v in r <==> exists j :: 0 <= j < k && v in liveIn[succs[j]]
    {
      r := r + liveIn[succs[k]];
    }
  }

  /** How far the sets are from the universe `u`: what the fixpoint loop uses up. */
  ghost function Slack(u: set<Name>, s: seq<set<Name>>): nat {
    if s == [] then 0 else |u - s[0]| + Slack(u, s[1..])
  }

  lemma {:induction false} SlackFalls(u: set<Name>, s: seq<set<Name>>, i: nat, t: set<Name>)
    requires i < |s| && s[i] < t <= u
    ensures Slack(u, s[i := t]) < Slack(u, s)
    decreases i
  {
    if i == 0 {
      Smaller(u - t, u - s[0]);
      assert s[i := t][1..] == s[1..];
    } else {
      assert s[i := t][1..] == s[1..][i - 1 := t];
      SlackFalls(u, s[1..], i - 1, t);
    }
  }

  /** Nothing is in the sets that the equations, read as inclusions, do not justify, and
      everything in them is live along some path. */
  ghost predicate Below(g: Graph, gen: seq<set<Name>>, kill: seq<set<Name>>,
                        liveIn: seq<set<Name>>, liveOut: seq<set<Name>>, u: set<Name>)
    requires |gen| == |kill| == |liveIn| == |liveOut| == |g| && Closed(g)
  {
    && (forall b, v :: 0 <= b < |g| && v in liveOut[b] ==> FromSucc(g[b], liveIn, v))
    && (forall b :: 0 <= b < |g| ==> liveIn[b] <= gen[b] + (liveOut[b] - kill[b]))
    && (forall b :: 0 <= b < |g| ==> liveIn[b] <= u && liveOut[b] <= u)
    && (forall b, v :: 0 <= b < |g| && v in liveIn[b] ==> PathLive(g, gen, kill, b, v))
  }

  /** One block's turn in a sweep. */
  method UpdateBlock(g: Graph, gen: seq<set<Name>>, kill: seq<set<Name>>, liveIn0: seq<set<Name>>,
                     liveOut0: seq<set<Name>>, ghost u: set<Name>, i: nat)
    returns (liveIn: seq<set<Name>>, liveOut: seq<set<Name>>, grew: bool)
    requires |gen| == |kill| == |liveIn0| == |liveOut0| == |g| && Closed(g) && i < |g| && gen[i] <= u
    requires Below(g, gen, kill, liveIn0, liveOut0, u)
    ensures |liveIn| == |liveOut| == |g| && Below(g, gen, kill, liveIn, liveOut, u)
    ensures !grew ==> liveIn == liveIn0 && liveOut == liveOut0 && EquationAt(g, gen, kill, liveIn, liveOut, i)
    ensures grew ==> Slack(u, liveIn) + Slack(u, liveOut) < Slack(u, liveIn0) + Slack(u, liveOut0)
  {
    liveIn, liveOut, grew := liveIn0, liveOut0, false;
    var outNew := JoinSuccs(g[i], liveIn);
    if outNew != liveOut[i] {
      OutGrows(g, gen, kill, liveIn, liveOut, u, i, outNew);
      SlackFalls(u, liveOut, i, outNew);
      liveOut := liveOut[i := outNew];
      grew := true;
    }
    var inNew := gen[i] + (liveOut[i] - kill[i]);
    if inNew != liveIn[i] {
      InGrows(g, gen, kill, liveIn, liveOut, u, i, inNew);
      SlackFalls(u, liveIn, i, inNew);
      liveIn := liveIn[i := inNew];
      grew := true;
    }
  }

  /** One pass over the blocks, last to first. */
  method Sweep(g: Graph, gen: seq<set<Name>>, kill: seq<set<Name>>, liveIn0: seq<set<Name>>,
               liveOut0: seq<set<Name>>, ghost u: set<Name>)
    returns (liveIn: seq<set<Name>>, liveOut: seq<set<Name>>, changed: bool)
    requires |gen| == |kill| == |liveIn0| == |liveOut0| == |g| && Closed(g)
    requires (forall b :: 0 <= b < |g| ==> gen[b] <= u) && Below(g, gen, kill, liveIn0, liveOut0, u)
    ensures |liveIn| == |liveOut| == |g| && Below(g, gen, kill, liveIn, liveOut, u)
    ensures if changed then Slack(u, liveIn) + Slack(u, liveOut) < Slack(u, liveIn0) + Slack(u, liveOut0)
            else Equations(g, gen, kill, liveIn, liveOut) && liveIn == liveIn0 && liveOut == liveOut0
  {
    hide PathLive;
    liveIn, liveOut, changed := liveIn0, liveOut0, false;
    for i := |g| downto 0
      invariant |liveIn| == |liveOut| == |g| && Below(g, gen, kill, liveIn, liveOut, u)
      invariant if changed then Slack(u, liveIn) + Slack(u, liveOut) < Slack(u, liveIn0) + Slack(u, liveOut0)
                else liveIn == liveIn0 && liveOut == liveOut0
      invariant !changed ==> forall b :: i <= b < |g| ==> EquationAt(g, gen, kill, liveIn0, liveOut0, b)
    {
      var grew;
      liveIn, liveOut, grew := UpdateBlock(g, gen, kill, liveIn, liveOut, u, i);
      changed := changed || grew;
    }
  }

  method LiveSets(g: Graph, gen: seq<set<Name>>, kill: seq<set<Name>>, ghost u: set<Name>)
    returns (liveIn: seq<set<Name>>, liveOut: seq<set<Name>>)
    requires Closed(g) && |gen| == |kill| == |g|
    requires forall b :: 0 <= b < |g| ==> gen[b] <= u
    ensures |liveIn| == |liveOut| == |g|
    ensures Equations(g, gen, kill, liveIn, liveOut)
    ensures forall b, v :: 0 <= b < |g| ==> (v in liveIn[b] <==> PathLive(g, gen, kill, b, v))
  {
    liveIn := seq(|g|, _ => {});
    liveOut := seq(|g|, _ => {});
    var changed := true;
    while changed
      invariant |liveIn| == |liveOut| == |g|
      invariant Below(g, gen, kill, liveIn, liveOut, u)
      invariant !changed ==> Equations(g, gen, kill, liveIn, liveOut)
      decreases Slack(u, liveIn) + Slack(u, liveOut), changed
    {
      liveIn, liveOut, changed := Sweep(g, gen, kill, liveIn, liveOut, u);
    }
    EquationsAreExact(g, gen, kill, liveIn, liveOut, u);
  }

  lemma EquationsAreExact(g: Graph, gen: seq<set<Name>>, kill: seq<set<Name>>, liveIn: seq<set<Name>>,
                          liveOut: seq<set<Name>>, u: set<Name>)
    requires |gen| == |kill| == |liveIn| == |liveOut| == |g| && Closed(g)
    requires Below(g, gen, kill, liveIn, liveOut, u) && Equations(g, gen, kill, liveIn, liveOut)
    ensures forall b, v :: 0 <= b < |g| ==> (v in liveIn[b] <==> PathLive(g, gen, kill, b, v))
  {
    forall b, v | 0 <= b < |g| && PathLive(g, gen, kill, b, v) ensures v in liveIn[b] {
      var p :| LivePath(g, gen, kill, p, v) && p[0] == b;
      EquationsHoldPath(g, gen, kill, liveIn, liveOut, p, v);
    }
  }

  lemma OutGrows(g: Graph, gen: seq<set<Name>>, kill: seq<set<Name>>, liveIn: seq<set<Name>>,
                 liveOut: seq<set<Name>>, u: set<Name>, i: nat, t: set<Name>)
    requires |gen| == |kill| == |liveIn| == |liveOut| == |g| && Closed(g) && i < |g|
    requires Below(g, gen, kill, liveIn, liveOut, u)
    requires t != liveOut[i] && forall v :: v in t <==> FromSucc(g[i], liveIn, v)
    ensures liveOut[i] < t <= u && Below(g, gen, kill, liveIn, liveOut[i := t], u)
  {
    forall v | v in t ensures v in u {
      var k :| 0 <= k < |g[i]| && v in liveIn[g[i][k]];
    }
  }

  lemma InGrows(g: Graph, gen: seq<set<Name>>, kill: seq<set<Name>>, liveIn: seq<set<Name>>,
                liveOut: seq<set<Name>>, u: set<Name>, i: nat, t: set<Name>)
    requires |gen| == |kill| == |liveIn| == |liveOut| == |g| && Closed(g) && i < |g|
    requires Below(g, gen, kill, liveIn, liveOut, u) && gen[i] <= u
    requires t != liveIn[i] && t == gen[i] + (liveOut[i] - kill[i])
    ensures liveIn[i] < t <= u && Below(g, gen, kill, liveIn[i := t], liveOut, u)
  {
    var liveIn' := liveIn[i := t];
    forall b, v | 0 <= b < |g| && v in liveOut[b] ensures FromSucc(g[b], liveIn', v) {
      var k :| 0 <= k < |g[b]| && v in liveIn[g[b][k]];
      assert v in liveIn'[g[b][k]];
    }
    forall v | v in t ensures PathLive(g, gen, kill, i, v) {
      if v in gen[i] {
        assert LivePath(g, gen, kill, [i], v);
      } else {
        var k :| 0 <= k < |g[i]| && v in liveIn[g[i][k]];
        var p :| LivePath(g, gen, kill, p, v) && p[0] == g[i][k];
        ConsLive(g, gen, kill, i, p, v);
      }
    }
  }

  lemma ConsLive(g: Graph, gen: seq<set<Name>>, kill: seq<set<Name>>, i: nat, p: seq<nat>, v: Name)
    requires |gen| == |kill| == |g| && i < |g| && LivePath(g, gen, kill, p, v)
    requires Edge(g, i, p[0]) && v !in kill[i]
    ensures LivePath(g, gen, kill, [i] + p, v)
  {
    var q := [i] + p;
    forall k | 0 <= k < |q| - 1 ensures Edge(g, q[k], q[k + 1]) && v !in kill[q[k]] {
      if k > 0 { assert Edge(g, p[k - 1], p[k]); }
    }
  }

  lemma {:induction false} EquationsHoldPath(g: Graph, gen: seq<set<Name>>, kill: seq<set<Name>>,
                                             liveIn: seq<set<Name>>, liveOut: seq<set<Name>>, p: seq<nat>, v: Name)
    requires |gen| == |kill| == |liveIn| == |liveOut| == |g| && Closed(g)
    requires Equations(g, gen, kill, liveIn, liveOut) && LivePath(g, gen, kill, p, v)
    ensures v in liveIn[p[0]]
    decreases |p|
  {
    assert EquationAt(g, gen, kill, liveIn, liveOut, p[0]);
    if |p| > 1 {
      assert Edge(g, p[0], p[1]);
      var q := p[1..];
      forall k | 0 <= k < |q| - 1 ensures Edge(g, q[k], q[k + 1]) {
        assert Edge(g, p[k + 1], p[k + 2]);
      }
      EquationsHoldPath(g, gen, kill, liveIn, liveOut, q, v);
      var k :| 0 <= k < |g[p[0]]| && g[p[0]][k] == p[1];
      assert FromSucc(g[p[0]], liveIn, v);
    }
  }

  // ---- Ranges ------------------------------------------------------------------------

  datatype Facts = Facts(
    defs: map<Name, Def>, uses: map<Name, set<Point>>, copies: map<Name, set<Point>>,
    g: Graph, preds: Graph, liveIn: seq<set<Name>>, liveOut: seq<set<Name>>)

  ghost predicate IsFacts(f: Func, F: Facts) {
    && WellFormed(f)
    && F.g == SuccGraph(f.blocks)
    && Transposed(F.g, F.preds)
    && IsDefMap(f, F.defs) && IsUseMap(f, F.uses) && IsCopyMap(f, F.copies)
    && |F.liveIn| == |F.liveOut| == |F.g|
    && Equations(F.g, Gens(F.defs, F.uses, |F.g|), Kills(F.defs, |F.g|), F.liveIn, F.liveOut)
  }

  function Gens(defs: map<Name, Def>, uses: map<Name, set<Point>>, n: nat): seq<set<Name>> {
    seq(n, b requires 0 <= b => UseBeforeDef(defs, uses, b))
  }

  function Kills(defs: map<Name, Def>, n: nat): seq<set<Name>> {
    seq(n, b requires 0 <= b => DefSet(defs, b))
  }

  /** Every fact the colouring needs about `f`. */
  method Analyse(f: Func) returns (F: Facts)
    requires WellFormed(f)
    ensures IsFacts(f, F) && AllNumbered(f, F.defs)
  {
    var defs := CollectDefs(f);
    var uses, copies := CollectUses(f);
    var g := SuccGraph(f.blocks);
    var gen := Gens(defs, uses, |g|);
    var kill := Kills(defs, |g|);
    var preds := BuildPreds(g);
    var liveIn, liveOut := LiveSets(g, gen, kill, uses.Keys);
    F := Facts(defs, uses, copies, g, preds, liveIn, liveOut);
  }

  /** The points the start of `v`'s range is the least of. */
  ghost predicate LoPoint(F: Facts, v: Name, q: Point)
    requires v in F.defs
  {
    || q == F.defs[v].at || Has(F.uses, v, q) || Has(F.copies, v, q)
    || (q.pos == 0 && 1 <= q.block < |F.liveIn| && v in F.liveIn[q.block])
  }

  /** The points the end of `v`'s range is the greatest of: `v` is also live at the end of
      every predecessor of a block it enters. */
  ghost predicate HiPoint(f: Func, F: Facts, v: Name, q: Point)
    requires v in F.defs
  {
    || q == F.defs[v].at || Has(F.uses, v, q) || Has(F.copies, v, q)
    || (q.block < |f.blocks| && q.pos == |f.blocks[q.block]|
        && exists b :: 0 <= b < |F.liveIn| && Edge(F.g, q.block, b) && v in F.liveIn[b])
  }

  ghost predicate IsRange(f: Func, F: Facts, v: Name, r: Range)
    requires v in F.defs
  {
    && LoPoint(F, v, r.lo) && (forall q :: LoPoint(F, v, q) ==> Le(r.lo, q))
    && HiPoint(f, F, v, r.hi) && (forall q :: HiPoint(f, F, v, q) ==> Le(q, r.hi))
  }

  method Stretch(r0: Range, pts: set<Point>) returns (r: Range)
    ensures Le(r.lo, r0.lo) && Le(r0.hi, r.hi)
    ensures r.lo == r0.lo || r.lo in pts
    ensures r.hi == r0.hi || r.hi in pts
    ensures forall q :: q in pts ==> Contains(r, q)
  {
    r := r0;
    var todo := pts;
    while todo != {}
      invariant todo <= pts
      invariant Le(r.lo, r0.lo) && Le(r0.hi, r.hi)
      invariant r.lo == r0.lo || r.lo in pts
      invariant r.hi == r0.hi || r.hi in pts
      invariant forall q :: q in pts && q !in todo ==> Contains(r, q)
    {
      var q :| q in todo;
      r := Range(MinP(r.lo, q), MaxP(r.hi, q));
      todo := todo - {q};
    }
  }

  /** `v` enters block `b`, so it is held to the end of every predecessor. */
  method StretchPreds(f: Func, F: Facts, v: Name, b: nat, r0: Range) returns (r: Range)
    requires Transposed(F.g, F.preds) && |F.g| == |F.liveIn| == |f.blocks|
    requires v in F.defs && b < |F.g| && v in F.liveIn[b] && HiPoint(f, F, v, r0.hi)
    ensures r.lo == r0.lo && HiPoint(f, F, v, r.hi) && Le(r0.hi, r.hi)
    ensures forall a: nat :: Edge(F.g, a, b) ==> Le(Point(a, |f.blocks[a]|), r.hi)
  {
    r := r0;
    for k := 0 to |F.preds[b]|
      invariant r.lo == r0.lo && HiPoint(f, F, v, r.hi) && Le(r0.hi, r.hi)
      invariant forall j :: 0 <= j < k ==> Le(Point(F.preds[b][j], |f.blocks[F.preds[b][j]]|), r.hi)
    {
      var a := F.preds[b][k];
      assert Edge(F.preds, b, a);
      assert HiPoint(f, F, v, Point(a, |f.blocks[a]|));
      r := Range(r.lo, MaxP(r.hi, Point(a, |f.blocks[a]|)));
    }
    forall a: nat | Edge(F.g, a, b) ensures Le(Point(a, |f.blocks[a]|), r.hi) {
      assert Edge(F.preds, b, a);
      var k :| 0 <= k < |F.preds[b]| && F.preds[b][k] == a;
    }
  }

  /** The blocks below `n` that `v` enters are inside the range, predecessors' ends included. */
  ghost predicate CoversEntries(f: Func, F: Facts, v: Name, r: Range, n: nat)
    requires |F.g| == |F.liveIn| == |f.blocks| && n <= |F.g|
  {
    && (forall c :: 1 <= c < n && v in F.liveIn[c] ==> Le(r.lo, Point(c, 0)))
    && (forall c: nat, a: nat :: c < n && v in F.liveIn[c] && Edge(F.g, a, c) ==>
          Le(Point(a, |f.blocks[a]|), r.hi))
  }

  method LiveRangeOf(f: Func, F: Facts, v: Name) returns (r: Range)
    requires Transposed(F.g, F.preds) && |F.g| == |F.liveIn| == |f.blocks| && v in F.defs
    ensures IsRange(f, F, v, r)
  {
    r := Range(F.defs[v].at, F.defs[v].at);
    r := Stretch(r, At(F.uses, v));
    r := Stretch(r, At(F.copies, v));
    ghost var base := r;
    NoEntriesYet(f, F, v, r);
    hide *;
    for b := 0 to |F.g|
      invariant LoPoint(F, v, r.lo) && HiPoint(f, F, v, r.hi)
      invariant Le(r.lo, base.lo) && Le(base.hi, r.hi)
      invariant CoversEntries(f, F, v, r, b)
    {
      r := EnterBlock(f, F, v, b, r);
    }
    RangeComplete(f, F, v, base, r);
  }

  lemma NoEntriesYet(f: Func, F: Facts, v: Name, r: Range)
    requires |F.g| == |F.liveIn| == |f.blocks|
    ensures CoversEntries(f, F, v, r, 0)
  {
  }

  lemma RangeComplete(f: Func, F: Facts, v: Name, base: Range, r: Range)
    requires |F.g| == |F.liveIn| == |f.blocks| && v in F.defs
    requires LoPoint(F, v, r.lo) && HiPoint(f, F, v, r.hi) && Le(r.lo, base.lo) && Le(base.hi, r.hi)
    requires CoversEntries(f, F, v, r, |F.g|) && Contains(base, F.defs[v].at)
    requires forall q :: Has(F.uses, v, q) || Has(F.copies, v, q) ==> Contains(base, q)
    ensures IsRange(f, F, v, r)
  {
  }

  method EnterBlock(f: Func, F: Facts, v: Name, b: nat, r0: Range) returns (r: Range)
    requires Transposed(F.g, F.preds) && |F.g| == |F.liveIn| == |f.blocks| && v in F.defs && b < |F.g|
    requires LoPoint(F, v, r0.lo) && HiPoint(f, F, v, r0.hi) && CoversEntries(f, F, v, r0, b)
    ensures LoPoint(F, v, r.lo) && HiPoint(f, F, v, r.hi) && CoversEntries(f, F, v, r, b + 1)
    ensures Le(r.lo, r0.lo) && Le(r0.hi, r.hi)
  {
    r := r0;
    if v in F.liveIn[b] {
      if b > 0 {
        assert LoPoint(F, v, Point(b, 0));
        r := Range(MinP(r.lo, Point(b, 0)), r.hi);
      }
      r := StretchPreds(f, F, v, b, r);
    }
  }
}
