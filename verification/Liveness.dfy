/** Definitions, uses, block liveness and live ranges of a function's values. */
module Liveness {
  import opened Wrappers
  import opened Points
  import opened Ir
  import opened Cfg

  datatype Def = Def(at: Point, width: nat, order: nat)

  ghost predicate IsInst(f: Func, b: nat, p: nat) {
    b < |f.blocks| && p < |f.blocks[b]|
  }

  // ---- What the source text says -----------------------------------------------------

  ghost predicate IsParam(f: Func, v: Name) {
    exists k: nat :: 0 <= k < |f.params| && f.params[k].name == v
  }

  /** The instruction at `(b, p)` defines `v`. */
  ghost predicate DefHere(f: Func, b: nat, p: nat, v: Name) {
    IsInst(f, b, p) && DefOf(f.blocks[b][p]).Some? && DefOf(f.blocks[b][p]).value.0 == v
  }

  /** A phi in block `m` takes `v` from predecessor `pred`. */
  ghost predicate PhiTakes(f: Func, m: nat, p: nat, k: nat, v: Name, pred: nat) {
    && IsInst(f, m, p)
    && f.blocks[m][p].Phi?
    && k < |f.blocks[m][p].incoming|
    && f.blocks[m][p].incoming[k] == Incoming(Reg(v), pred)
  }

  /** `v` is read at `at`: by the instruction there, or by a phi copy at the block's end. */
  ghost predicate UseAt(f: Func, v: Name, at: Point) {
    || (IsInst(f, at.block, at.pos) && v in Reads(f.blocks[at.block][at.pos]))
    || (at.block < |f.blocks| && at.pos == |f.blocks[at.block]|
        && exists m: nat, p: nat, k: nat :: PhiTakes(f, m, p, k, v, at.block))
  }

  /** The phi defining `v` is written by a copy at `at`, the end of a predecessor. */
  ghost predicate CopiedAt(f: Func, v: Name, at: Point) {
    && at.block < |f.blocks| && at.pos == |f.blocks[at.block]|
    && exists m: nat, p: nat, k: nat :: PhiFrom(f, m, p, k, v, at.block)
  }

  ghost predicate PhiFrom(f: Func, m: nat, p: nat, k: nat, v: Name, pred: nat) {
    && IsInst(f, m, p)
    && f.blocks[m][p].Phi?
    && f.blocks[m][p].dst == v
    && k < |f.blocks[m][p].incoming|
    && f.blocks[m][p].incoming[k].pred == pred
  }

  /** The shape the pass relies on: labels resolve, names are defined once, phis lead their
      block and cover its predecessors, nothing jumps to the entry, no Gep is left. */
  ghost predicate WellFormed(f: Func) {
    && |f.blocks| > 0
    && Closed(SuccGraph(f.blocks))
    && (forall m: nat, p: nat, k: nat ::
          IsInst(f, m, p) && f.blocks[m][p].Phi? && 0 <= k < |f.blocks[m][p].incoming| ==>
          f.blocks[m][p].incoming[k].pred < |f.blocks|)
    && (forall j: nat, k: nat :: 0 <= j < k < |f.params| ==> f.params[j].name != f.params[k].name)
    && (forall b: nat, p: nat, v :: DefHere(f, b, p, v) ==> !IsParam(f, v))
    && (forall b: nat, p: nat, c: nat, q: nat, v :: DefHere(f, b, p, v) && DefHere(f, c, q, v) ==> b == c && p == q)
    && (forall b: nat, p: nat, q: nat ::
          IsInst(f, b, p) && IsInst(f, b, q) && f.blocks[b][p].Phi? && !f.blocks[b][q].Phi? ==> p < q)
    && (forall a: nat, b: nat, p: nat :: Edge(SuccGraph(f.blocks), a, b) && IsInst(f, b, p) && f.blocks[b][p].Phi? ==>
          exists k: nat :: 0 <= k < |f.blocks[b][p].incoming| && f.blocks[b][p].incoming[k].pred == a)
    && (forall a: nat :: !Edge(SuccGraph(f.blocks), a, 0))
    && (forall b: nat, p: nat :: IsInst(f, b, p) ==> !f.blocks[b][p].Gep?)
  }

  // ---- Collected facts ---------------------------------------------------------------

  ghost predicate IsDefMap(f: Func, defs: map<Name, Def>) {
    && (forall v :: v in defs ==>
          || (IsParam(f, v) && defs[v].at == Point(0, 0))
          || DefHere(f, defs[v].at.block, defs[v].at.pos, v))
    && (forall v :: IsParam(f, v) ==> v in defs)
    && (forall b: nat, p: nat, v :: DefHere(f, b, p, v) ==> v in defs)
  }

  /** Widths and placement orders are those of the text. */
  ghost predicate AllNumbered(f: Func, defs: map<Name, Def>) {
    forall v :: v in defs ==> Numbered(f, v, defs[v])
  }

  /** The definitions among the first `p` instructions of a block. */
  function DefsIn(b: Block, p: nat): nat
    requires p <= |b|
  {
    if p == 0 then 0 else DefsIn(b, p - 1) + if DefOf(b[p - 1]).Some? then 1 else 0
  }

  /** The definitions in the first `b` blocks. */
  function DefsAbove(f: Func, b: nat): nat
    requires b <= |f.blocks|
  {
    if b == 0 then 0 else DefsAbove(f, b - 1) + DefsIn(f.blocks[b - 1], |f.blocks[b - 1]|)
  }

  /** The width is the definition's own, and the placement order counts the parameters and then
      the definitions ahead of it in the text. */
  ghost predicate Numbered(f: Func, v: Name, d: Def) {
    || (exists k: nat :: 0 <= k < |f.params| && f.params[k] == Param(v, d.width) && d.order == k)
    || (DefHere(f, d.at.block, d.at.pos, v) && DefOf(f.blocks[d.at.block][d.at.pos]) == Some((v, d.width))
        && d.order == |f.params| + DefsAbove(f, d.at.block) + DefsIn(f.blocks[d.at.block], d.at.pos))
  }

  /** `w` is the width `v` has in the text. */
  ghost predicate OwnWidth(f: Func, v: Name, w: nat) {
    && (forall k: nat :: 0 <= k < |f.params| && f.params[k].name == v ==> f.params[k].width == w)
    && (forall b: nat, p: nat :: DefHere(f, b, p, v) ==> DefOf(f.blocks[b][p]).value.1 == w)
  }

  lemma NumberedWidth(f: Func, v: Name, d: Def)
    requires WellFormed(f) && Numbered(f, v, d)
    ensures OwnWidth(f, v, d.width)
  {
    if k: nat :| 0 <= k < |f.params| && f.params[k] == Param(v, d.width) && d.order == k {
      assert IsParam(f, v) by { assert f.params[k].name == v; }
      forall j: nat | 0 <= j < |f.params| && f.params[j].name == v ensures j == k {
      }
    } else {
      forall j: nat | 0 <= j < |f.params| ensures f.params[j].name != v {
        if f.params[j].name == v { assert IsParam(f, v); }
      }
    }
  }

  lemma {:induction false} DefsInMore(b: Block, p: nat, q: nat)
    requires p < q <= |b| && DefOf(b[p]).Some?
    ensures DefsIn(b, p) < DefsIn(b, q)
    decreases q
  {
    if p < q - 1 { DefsInMore(b, p, q - 1); }
  }

  lemma {:induction false} DefsAboveMore(f: Func, b: nat, p: nat, c: nat)
    requires b < c <= |f.blocks| && p < |f.blocks[b]| && DefOf(f.blocks[b][p]).Some?
    ensures DefsAbove(f, b) + DefsIn(f.blocks[b], p) < DefsAbove(f, c)
    decreases c
  {
    if b < c - 1 {
      DefsAboveMore(f, b, p, c - 1);
    } else {
      DefsInMore(f.blocks[b], p, |f.blocks[b]|);
    }
  }

  /** The placement order is the order of the text: parameters as listed, ahead of everything
      else, then definitions by block and position. */
  lemma OrderIsTextual(f: Func, defs: map<Name, Def>, u: Name, v: Name)
    requires WellFormed(f) && AllNumbered(f, defs) && u in defs && v in defs
    ensures IsParam(f, u) <==> defs[u].order < |f.params|
    ensures forall k: nat :: 0 <= k < |f.params| && f.params[k].name == u ==> defs[u].order == k
    ensures !IsParam(f, u) && !IsParam(f, v) && Lt(defs[u].at, defs[v].at) ==> defs[u].order < defs[v].order
  {
    assert Numbered(f, u, defs[u]) && Numbered(f, v, defs[v]);
    var a, b := defs[u].at, defs[v].at;
    if !IsParam(f, u) && !IsParam(f, v) && Lt(a, b) {
      assert DefHere(f, a.block, a.pos, u) && DefHere(f, b.block, b.pos, v);
      if a.block < b.block {
        DefsAboveMore(f, a.block, a.pos, b.block);
      } else {
        DefsInMore(f.blocks[a.block], a.pos, b.pos);
      }
    }
  }

  function At(m: map<Name, set<Point>>, v: Name): set<Point> {
    if v in m then m[v] else {}
  }

  predicate Has(m: map<Name, set<Point>>, v: Name, at: Point) {
    at in At(m, v)
  }

  ghost predicate IsUseMap(f: Func, uses: map<Name, set<Point>>) {
    forall v, at :: Has(uses, v, at) <==> UseAt(f, v, at)
  }

  ghost predicate IsCopyMap(f: Func, copies: map<Name, set<Point>>) {
    forall v, at :: Has(copies, v, at) <==> CopiedAt(f, v, at)
  }

  /** What is collected when the text before `(b, p)` has been read. */
  ghost predicate DefsSoFar(f: Func, defs: map<Name, Def>, b: nat, p: nat) {
    && (forall v :: v in defs ==>
          || (IsParam(f, v) && defs[v].at == Point(0, 0))
          || DefHere(f, defs[v].at.block, defs[v].at.pos, v))
    && (forall v :: IsParam(f, v) ==> v in defs)
    && (forall c: nat, q: nat, v :: Lt(Point(c, q), Point(b, p)) && DefHere(f, c, q, v) ==> v in defs)
    && (forall v :: v in defs ==> Numbered(f, v, defs[v]))
  }

  lemma AddDef(f: Func, defs: map<Name, Def>, b: nat, p: nat, order: nat)
    requires IsInst(f, b, p) && DefsSoFar(f, defs, b, p)
    requires order == |f.params| + DefsAbove(f, b) + DefsIn(f.blocks[b], p)
    ensures var d := DefOf(f.blocks[b][p]);
      DefsSoFar(f, if d.Some? then defs[d.value.0 := Def(Point(b, p), d.value.1, order)] else defs, b, p + 1)
  {
    hide IsParam, DefsAbove, DefsIn;
    var d := DefOf(f.blocks[b][p]);
    if d.Some? {
      assert DefHere(f, b, p, d.value.0);
      assert Numbered(f, d.value.0, Def(Point(b, p), d.value.1, order));
    }
  }

  lemma NextBlock(f: Func, defs: map<Name, Def>, b: nat)
    requires b < |f.blocks| && DefsSoFar(f, defs, b, |f.blocks[b]|)
    ensures DefsSoFar(f, defs, b + 1, 0)
  {
    hide Numbered;
  }

  method CollectDefs(f: Func) returns (defs: map<Name, Def>)
    requires WellFormed(f)
    ensures IsDefMap(f, defs) && AllNumbered(f, defs)
  {
    hide WellFormed;
    defs := map[];
    var order := 0;
    for k := 0 to |f.params|
      invariant forall v :: v in defs ==> IsParam(f, v) && defs[v].at == Point(0, 0)
      invariant forall j: nat :: 0 <= j < k ==> f.params[j].name in defs
      invariant order == k && forall v :: v in defs ==> Numbered(f, v, defs[v])
    {
      assert IsParam(f, f.params[k].name);
      defs := defs[f.params[k].name := Def(Point(0, 0), f.params[k].width, order)];
      order := order + 1;
    }
    assert DefsSoFar(f, defs, 0, 0);
    hide Numbered, DefHere, IsParam, DefsSoFar;
    for b := 0 to |f.blocks|
      invariant DefsSoFar(f, defs, b, 0) && order == |f.params| + DefsAbove(f, b)
    {
      for p := 0 to |f.blocks[b]|
        invariant DefsSoFar(f, defs, b, p) && order == |f.params| + DefsAbove(f, b) + DefsIn(f.blocks[b], p)
      {
        var d := DefOf(f.blocks[b][p]);
        assert IsInst(f, b, p);
        AddDef(f, defs, b, p, order);
        if d.Some? {
          defs := defs[d.value.0 := Def(Point(b, p), d.value.1, order)];
          order := order + 1;
        }
      }
      NextBlock(f, defs, b);
    }
    AllDefs(f, defs);
  }

  lemma AllDefs(f: Func, defs: map<Name, Def>)
    requires DefsSoFar(f, defs, |f.blocks|, 0)
    ensures IsDefMap(f, defs) && AllNumbered(f, defs)
  {
    hide Numbered;
    forall b: nat, p: nat, v | DefHere(f, b, p, v) ensures v in defs {
      assert Lt(Point(b, p), Point(|f.blocks|, 0));
    }
  }

  method AddPoint(m: map<Name, set<Point>>, v: Name, at: Point) returns (r: map<Name, set<Point>>)
    ensures forall w, q :: Has(r, w, q) <==> Has(m, w, q) || (w == v && q == at)
  {
    r := m[v := At(m, v) + {at}];
  }

  /** A read in the part of the text before instruction `(b, p)`. */
  ghost predicate UseBefore(f: Func, v: Name, at: Point, b: nat, p: nat) {
    || (IsInst(f, at.block, at.pos) && Lt(at, Point(b, p)) && v in Reads(f.blocks[at.block][at.pos]))
    || (at.block < |f.blocks| && at.pos == |f.blocks[at.block]|
        && exists m: nat, q: nat, k: nat :: Lt(Point(m, q), Point(b, p)) && PhiTakes(f, m, q, k, v, at.block))
  }

  ghost predicate CopyBefore(f: Func, v: Name, at: Point, b: nat, p: nat) {
    && at.block < |f.blocks| && at.pos == |f.blocks[at.block]|
    && exists m: nat, q: nat, k: nat :: Lt(Point(m, q), Point(b, p)) && PhiFrom(f, m, q, k, v, at.block)
  }

  method CollectUses(f: Func) returns (uses: map<Name, set<Point>>, copies: map<Name, set<Point>>)
    requires WellFormed(f)
    ensures IsUseMap(f, uses) && IsCopyMap(f, copies)
  {
    uses, copies := map[], map[];
    for b := 0 to |f.blocks|
      invariant forall v, at :: Has(uses, v, at) <==> UseBefore(f, v, at, b, 0)
      invariant forall v, at :: Has(copies, v, at) <==> CopyBefore(f, v, at, b, 0)
    {
      for p := 0 to |f.blocks[b]|
        invariant forall v, at :: Has(uses, v, at) <==> UseBefore(f, v, at, b, p)
        invariant forall v, at :: Has(copies, v, at) <==> CopyBefore(f, v, at, b, p)
      {
        uses, copies := CollectInst(f, b, p, uses, copies);
      }
      forall v, at ensures UseBefore(f, v, at, b, |f.blocks[b]|) <==> UseBefore(f, v, at, b + 1, 0) {
        forall m: nat, q: nat, k: nat | PhiTakes(f, m, q, k, v, at.block)
          ensures Lt(Point(m, q), Point(b, |f.blocks[b]|)) <==> Lt(Point(m, q), Point(b + 1, 0)) {
        }
      }
      forall v, at ensures CopyBefore(f, v, at, b, |f.blocks[b]|) <==> CopyBefore(f, v, at, b + 1, 0) {
        forall m: nat, q: nat, k: nat | PhiFrom(f, m, q, k, v, at.block)
          ensures Lt(Point(m, q), Point(b, |f.blocks[b]|)) <==> Lt(Point(m, q), Point(b + 1, 0)) {
        }
      }
    }
    forall v, at ensures UseBefore(f, v, at, |f.blocks|, 0) <==> UseAt(f, v, at) {
      forall m: nat, q: nat, k: nat | PhiTakes(f, m, q, k, v, at.block) ensures Lt(Point(m, q), Point(|f.blocks|, 0)) {
      }
    }
    forall v, at ensures CopyBefore(f, v, at, |f.blocks|, 0) <==> CopiedAt(f, v, at) {
      forall m: nat, q: nat, k: nat | PhiFrom(f, m, q, k, v, at.block) ensures Lt(Point(m, q), Point(|f.blocks|, 0)) {
      }
    }
  }

  method CollectInst(f: Func, b: nat, p: nat, uses0: map<Name, set<Point>>, copies0: map<Name, set<Point>>)
    returns (uses: map<Name, set<Point>>, copies: map<Name, set<Point>>)
    requires WellFormed(f) && IsInst(f, b, p)
    requires forall v, at :: Has(uses0, v, at) <==> UseBefore(f, v, at, b, p)
    requires forall v, at :: Has(copies0, v, at) <==> CopyBefore(f, v, at, b, p)
    ensures forall v, at :: Has(uses, v, at) <==> UseBefore(f, v, at, b, p + 1)
    ensures forall v, at :: Has(copies, v, at) <==> CopyBefore(f, v, at, b, p + 1)
  {
    uses, copies := uses0, copies0;
    var i := f.blocks[b][p];
    if i.Phi? {
      for k := 0 to |i.incoming|
        invariant forall v, at :: Has(uses, v, at) <==>
          Has(uses0, v, at) || TakenBefore(f, i.incoming, k, v, at)
        invariant forall v, at :: Has(copies, v, at) <==>
          Has(copies0, v, at) || (v == i.dst && CopiedBefore(f, i.incoming, k, at))
      {
        var pi := i.incoming[k].pred;
        var end := Point(pi, |f.blocks[pi]|);
        forall v, at
          ensures TakenBefore(f, i.incoming, k + 1, v, at) <==>
            TakenBefore(f, i.incoming, k, v, at) || (i.incoming[k].val == Reg(v) && at == end)
          ensures CopiedBefore(f, i.incoming, k + 1, at) <==> CopiedBefore(f, i.incoming, k, at) || at == end
        {
          OneMoreIncoming(f, i.incoming, k, v, at);
        }
        if i.incoming[k].val.Reg? {
          uses := AddPoint(uses, i.incoming[k].val.r, end);
        }
        copies := AddPoint(copies, i.dst, end);
      }
      forall v, at ensures Has(uses, v, at) <==> UseBefore(f, v, at, b, p + 1) {
        StepUses(f, b, p, v, at);
      }
      forall v, at ensures Has(copies, v, at) <==> CopyBefore(f, v, at, b, p + 1) {
        StepCopies(f, b, p, v, at);
      }
    } else {
      var rs := Reads(i);
      for k := 0 to |rs|
        invariant forall v, at :: Has(uses, v, at) <==>
          Has(uses0, v, at) || (at == Point(b, p) && v in rs[..k])
      {
        uses := AddPoint(uses, rs[k], Point(b, p));
        assert rs[..k + 1] == rs[..k] + [rs[k]];
      }
      assert rs[..|rs|] == rs;
      forall v, at ensures Has(uses, v, at) <==> UseBefore(f, v, at, b, p + 1) {
        StepUses(f, b, p, v, at);
      }
      forall v, at ensures Has(copies, v, at) <==> CopyBefore(f, v, at, b, p + 1) {
        StepCopies(f, b, p, v, at);
      }
    }
  }

  ghost predicate TakenBefore(f: Func, inc: seq<Incoming>, n: nat, v: Name, at: Point) {
    && at.block < |f.blocks| && at.pos == |f.blocks[at.block]|
    && exists k: nat :: 0 <= k < n && k < |inc| && inc[k] == Incoming(Reg(v), at.block)
  }

  ghost predicate CopiedBefore(f: Func, inc: seq<Incoming>, n: nat, at: Point) {
    && at.block < |f.blocks| && at.pos == |f.blocks[at.block]|
    && exists k: nat :: 0 <= k < n && k < |inc| && inc[k].pred == at.block
  }

  lemma OneMoreIncoming(f: Func, inc: seq<Incoming>, k: nat, v: Name, at: Point)
    requires k < |inc| && inc[k].pred < |f.blocks|
    ensures var end := Point(inc[k].pred, |f.blocks[inc[k].pred]|);
      && (TakenBefore(f, inc, k + 1, v, at) <==>
            TakenBefore(f, inc, k, v, at) || (inc[k].val == Reg(v) && at == end))
      && (CopiedBefore(f, inc, k + 1, at) <==> CopiedBefore(f, inc, k, at) || at == end)
  {
    assert inc[k] == Incoming(inc[k].val, inc[k].pred);
  }

  lemma StepUses(f: Func, b: nat, p: nat, v: Name, at: Point)
    requires IsInst(f, b, p)
    ensures var i := f.blocks[b][p];
      UseBefore(f, v, at, b, p + 1) <==>
        || UseBefore(f, v, at, b, p)
        || (i.Phi? && TakenBefore(f, i.incoming, |i.incoming|, v, at))
        || (!i.Phi? && at == Point(b, p) && v in Reads(i))
  {
    var i := f.blocks[b][p];
    if i.Phi? && TakenBefore(f, i.incoming, |i.incoming|, v, at) {
      var k :| 0 <= k < |i.incoming| && i.incoming[k] == Incoming(Reg(v), at.block);
      assert PhiTakes(f, b, p, k, v, at.block) && Lt(Point(b, p), Point(b, p + 1));
    }
    if at.block < |f.blocks| && at.pos == |f.blocks[at.block]| {
      forall m: nat, q: nat, k: nat | Lt(Point(m, q), Point(b, p + 1)) && PhiTakes(f, m, q, k, v, at.block)
        ensures Lt(Point(m, q), Point(b, p)) || (i.Phi? && TakenBefore(f, i.incoming, |i.incoming|, v, at)) {
      }
      forall m: nat, q: nat, k: nat | Lt(Point(m, q), Point(b, p)) && PhiTakes(f, m, q, k, v, at.block)
        ensures Lt(Point(m, q), Point(b, p + 1)) {
      }
    }
  }

  lemma StepCopies(f: Func, b: nat, p: nat, v: Name, at: Point)
    requires IsInst(f, b, p)
    ensures var i := f.blocks[b][p];
      CopyBefore(f, v, at, b, p + 1) <==>
        || CopyBefore(f, v, at, b, p)
        || (i.Phi? && v == i.dst && CopiedBefore(f, i.incoming, |i.incoming|, at))
  {
    var i := f.blocks[b][p];
    if i.Phi? && v == i.dst && CopiedBefore(f, i.incoming, |i.incoming|, at) {
      var k :| 0 <= k < |i.incoming| && i.incoming[k].pred == at.block;
      assert PhiFrom(f, b, p, k, v, at.block) && Lt(Point(b, p), Point(b, p + 1));
    }
    if at.block < |f.blocks| && at.pos == |f.blocks[at.block]| {
      forall m: nat, q: nat, k: nat | Lt(Point(m, q), Point(b, p + 1)) && PhiFrom(f, m, q, k, v, at.block)
        ensures Lt(Point(m, q), Point(b, p))
                || (i.Phi? && v == i.dst && CopiedBefore(f, i.incoming, |i.incoming|, at)) {
      }
      forall m: nat, q: nat, k: nat | Lt(Point(m, q), Point(b, p)) && PhiFrom(f, m, q, k, v, at.block)
        ensures Lt(Point(m, q), Point(b, p + 1)) {
      }
    }
  }
}
