/** Control-flow graphs: paths, reachability closures and dominators. A graph lists the
    successors of each block; block 0 is the entry. */
module Cfg {
  import opened Wrappers

  type Graph = seq<seq<nat>>

  function UpTo(n: nat): (s: set<nat>)
    ensures forall v: nat :: v in s <==> v < n
  {
    if n == 0 then {} else UpTo(n - 1) + {n - 1}
  }

  lemma {:induction false} UpToSize(n: nat)
    ensures |UpTo(n)| == n
  {
    if n > 0 { UpToSize(n - 1); }
  }

  ghost predicate Closed(g: Graph) {
    forall i, k :: 0 <= i < |g| && 0 <= k < |g[i]| ==> g[i][k] < |g|
  }

  ghost predicate Edge(g: Graph, a: nat, b: nat) {
    a < |g| && b < |g| && b in g[a]
  }

  ghost predicate IsPath(g: Graph, p: seq<nat>) {
    && |p| > 0
    && p[0] < |g|
    && forall k :: 0 <= k < |p| - 1 ==> Edge(g, p[k], p[k + 1])
  }

  ghost predicate PathFromTo(g: Graph, p: seq<nat>, a: nat, b: nat) {
    IsPath(g, p) && p[0] == a && p[|p| - 1] == b
  }

  ghost predicate Reaches(g: Graph, a: nat, b: nat) {
    exists p :: PathFromTo(g, p, a, b)
  }

  /** `x` lies on a cycle. */
  ghost predicate OnCycle(g: Graph, x: nat) {
    exists p :: PathFromTo(g, p, x, x) && |p| > 1
  }

  ghost predicate Transposed(g: Graph, preds: Graph) {
    && |preds| == |g|
    && Closed(preds)
    && forall a, b :: Edge(g, a, b) <==> Edge(preds, b, a)
  }

  lemma Snoc(g: Graph, p: seq<nat>, a: nat, b: nat, c: nat)
    requires PathFromTo(g, p, a, b) && Edge(g, b, c)
    ensures PathFromTo(g, p + [c], a, c)
  {
    var q := p + [c];
    forall k | 0 <= k < |q| - 1 ensures Edge(g, q[k], q[k + 1]) {
      if k < |p| - 1 { assert Edge(g, p[k], p[k + 1]); }
    }
  }

  lemma Slice(g: Graph, p: seq<nat>, i: nat, j: nat)
    requires IsPath(g, p) && i <= j < |p|
    ensures PathFromTo(g, p[i..j + 1], p[i], p[j])
    ensures p[j] < |g|
  {
    forall k | 0 <= k < |p| ensures p[k] < |g| {
      if k > 0 { assert Edge(g, p[k - 1], p[k]); }
    }
    var q := p[i..j + 1];
    forall k | 0 <= k < |q| - 1 ensures Edge(g, q[k], q[k + 1]) {
      assert Edge(g, p[i + k], p[i + k + 1]);
    }
  }

  lemma Join(g: Graph, p: seq<nat>, q: seq<nat>, a: nat, b: nat, c: nat)
    requires PathFromTo(g, p, a, b) && PathFromTo(g, q, b, c)
    ensures PathFromTo(g, p + q[1..], a, c)
  {
    var r := p + q[1..];
    forall k | 0 <= k < |r| - 1 ensures Edge(g, r[k], r[k + 1]) {
      if k < |p| - 1 {
        assert Edge(g, p[k], p[k + 1]);
      } else {
        assert Edge(g, q[k - |p| + 1], q[k - |p| + 2]);
      }
    }
  }

  // ---- Predecessors and reachability -------------------------------------------------

  method BuildPreds(g: Graph) returns (preds: Graph)
    requires Closed(g)
    ensures Transposed(g, preds)
  {
    preds := seq(|g|, _ => []);
    for i := 0 to |g|
      invariant |preds| == |g| && Closed(preds)
      invariant forall b, a :: 0 <= b < |g| ==> (a in preds[b] <==> 0 <= a < i && b in g[a])
    {
      ghost var before := preds;
      for k := 0 to |g[i]|
        invariant |preds| == |g| && Closed(preds)
        invariant forall b, a :: 0 <= b < |g| ==>
          (a in preds[b] <==> a in before[b] || (a == i && b in g[i][..k]))
      {
        var s := g[i][k];
        ghost var old_ := preds;
        preds := preds[s := preds[s] + [i]];
        assert g[i][..k + 1] == g[i][..k] + [s];
        forall b, a | 0 <= b < |g|
          ensures a in preds[b] <==> a in before[b] || (a == i && b in g[i][..k + 1])
        {
          assert a in preds[b] <==> a in old_[b] || (a == i && b == s);
        }
      }
      assert g[i][..|g[i]|] == g[i];
    }
  }

  /** Forward closure: every block reachable from `a`. */
  method Closure(g: Graph, a: nat) returns (seen: set<nat>)
    requires Closed(g) && a < |g|
    ensures forall v :: v in seen <==> Reaches(g, a, v)
  {
    seen := {a};
    var stack: seq<nat> := [a];
    assert PathFromTo(g, [a], a, a);
    ghost var all := UpTo(|g|);
    while stack != []
      invariant a in seen && seen <= all
      invariant forall v :: v in seen ==> Reaches(g, a, v)
      invariant forall k :: 0 <= k < |stack| ==> stack[k] in seen
      invariant forall v, w :: v in seen && Edge(g, v, w) ==> v in stack || w in seen
      decreases all - seen, |stack|
    {
      var b := stack[|stack| - 1];
      ghost var stack0 := stack;
      stack := stack[..|stack| - 1];
      assert stack0 == stack + [b];
      ghost var rest, seen0 := stack, seen;
      ghost var pb :| PathFromTo(g, pb, a, b);
      for k := 0 to |g[b]|
        invariant seen0 <= seen <= all
        invariant forall v :: v in seen ==> Reaches(g, a, v)
        invariant |stack| >= |rest| && stack[..|rest|] == rest
        invariant forall j :: 0 <= j < |stack| ==> stack[j] in seen
        invariant forall v :: v in seen && v !in seen0 ==> v in stack
        invariant forall j :: 0 <= j < k ==> g[b][j] in seen
        invariant seen == seen0 ==> stack == rest
      {
        var s := g[b][k];
        if s !in seen {
          assert Edge(g, b, s);
          Snoc(g, pb, a, b, s);
          seen := seen + {s};
          stack := stack + [s];
        }
      }
      forall v, w | v in seen && Edge(g, v, w) ensures v in stack || w in seen {
        if v in seen0 && v != b {
          assert v in stack0 || w in seen0;
          if v in stack0 { assert v in rest; }
        }
      }
    }
    forall v | Reaches(g, a, v) ensures v in seen {
      var p :| PathFromTo(g, p, a, v);
      ClosedSetHoldsPath(g, seen, p, |p| - 1);
    }
  }

  lemma {:induction false} ClosedSetHoldsPath(g: Graph, s: set<nat>, p: seq<nat>, k: nat)
    requires IsPath(g, p) && p[0] in s && k < |p|
    requires forall v, w :: v in s && Edge(g, v, w) ==> w in s
    ensures p[k] in s
  {
    if k > 0 {
      ClosedSetHoldsPath(g, s, p, k - 1);
      assert Edge(g, p[k - 1], p[k]);
    }
  }

  lemma ReversePath(g: Graph, preds: Graph, p: seq<nat>, a: nat, b: nat) returns (q: seq<nat>)
    requires Transposed(g, preds) && PathFromTo(g, p, a, b)
    ensures PathFromTo(preds, q, b, a)
    ensures |q| == |p|
  {
    q := seq(|p|, i requires 0 <= i < |p| => p[|p| - 1 - i]);
    Slice(g, p, |p| - 1, |p| - 1);
    forall k | 0 <= k < |q| - 1 ensures Edge(preds, q[k], q[k + 1]) {
      assert Edge(g, p[|p| - 2 - k], p[|p| - 1 - k]);
    }
  }

  /** Backward closure: every block that reaches `b`. */
  method CoClosure(g: Graph, preds: Graph, b: nat) returns (seen: set<nat>)
    requires Closed(g) && Transposed(g, preds) && b < |g|
    ensures forall v :: v in seen <==> Reaches(g, v, b)
  {
    seen := Closure(preds, b);
    forall v ensures v in seen <==> Reaches(g, v, b) {
      if v in seen {
        var p :| PathFromTo(preds, p, b, v);
        var q := ReversePath(preds, g, p, b, v);
      }
      if Reaches(g, v, b) {
        var p :| PathFromTo(g, p, v, b);
        var q := ReversePath(g, preds, p, v, b);
      }
    }
  }

  /** Whether `x` runs again after it has run. */
  method SelfReachable(g: Graph, x: nat) returns (r: bool)
    requires Closed(g) && x < |g|
    ensures r <==> OnCycle(g, x)
  {
    var stack: seq<nat> := g[x];
    var seen: set<nat> := {};
    ghost var all := UpTo(|g|);
    forall k | 0 <= k < |stack| ensures ReachesAgain(g, x, stack[k]) {
      assert Edge(g, x, stack[k]);
      assert PathFromTo(g, [x], x, x);
      Snoc(g, [x], x, x, stack[k]);
    }
    while stack != []
      invariant seen <= all && x !in seen
      invariant forall k :: 0 <= k < |stack| ==> stack[k] < |g| && ReachesAgain(g, x, stack[k])
      invariant forall v :: v in seen ==> ReachesAgain(g, x, v)
      invariant forall w :: Edge(g, x, w) ==> w in stack || w in seen
      invariant forall v, w :: v in seen && Edge(g, v, w) ==> w in stack || w in seen
      decreases all - seen, |stack|
    {
      var b := stack[|stack| - 1];
      ghost var stack0 := stack;
      stack := stack[..|stack| - 1];
      assert stack0 == stack + [b];
      if b == x { return true; }
      if b !in seen {
        seen := seen + {b};
        ghost var rest := stack;
        ghost var p :| PathFromTo(g, p, x, b) && |p| > 1;
        forall k | 0 <= k < |g[b]| ensures ReachesAgain(g, x, g[b][k]) {
          assert Edge(g, b, g[b][k]);
          Snoc(g, p, x, b, g[b][k]);
        }
        stack := stack + g[b];
        forall v, w | v in seen && Edge(g, v, w) ensures w in stack || w in seen {
          if v != b && w in stack0 { assert w in rest || w == b; }
        }
        forall w | Edge(g, x, w) ensures w in stack || w in seen {
          if w in stack0 { assert w in rest || w == b; }
        }
      }
    }
    if OnCycle(g, x) {
      var p :| PathFromTo(g, p, x, x) && |p| > 1;
      assert Edge(g, p[0], p[1]);
      var q := p[1..];
      Slice(g, p, 1, |p| - 1);
      assert p[1..|p|] == q;
      ClosedSetHoldsPath(g, seen, q, |q| - 1);
    }
    r := false;
  }

  ghost predicate ReachesAgain(g: Graph, a: nat, b: nat) {
    exists p :: PathFromTo(g, p, a, b) && |p| > 1
  }

  // ---- Dominators --------------------------------------------------------------------

  /** Every path from the entry to `i` passes `d`. Vacuous, so full, for unreachable blocks. */
  ghost predicate Dominates(g: Graph, d: nat, i: nat) {
    forall p :: PathFromTo(g, p, 0, i) ==> d in p
  }

  ghost predicate IsDominatorTable(g: Graph, dom: seq<set<nat>>) {
    && |dom| == |g|
    && forall i, d :: 0 <= i < |g| && 0 <= d < |g| ==> (d in dom[i] <==> Dominates(g, d, i))
  }

  /** `dom[p]` met over the predecessors, plus the block itself; `None` without predecessors. */
  method MeetPreds(preds: seq<nat>, dom: seq<set<nat>>, i: nat) returns (r: Option<set<nat>>)
    requires forall k :: 0 <= k < |preds| ==> preds[k] < |dom|
    ensures r.None? <==> preds == []
    ensures r.Some? ==> forall d :: d in r.value <==> d == i || MetBy(preds, dom, d)
  {
    var m: Option<set<nat>> := None;
    for k := 0 to |preds|
      invariant m.None? <==> k == 0
      invariant m.Some? ==> forall d :: d in m.value <==> forall j :: 0 <= j < k ==> d in dom[preds[j]]
    {
      m := match m
        case None => Some(dom[preds[k]])
        case Some(s) => Some(s * dom[preds[k]]);
    }
    r := match m case None => None case Some(s) => Some(s + {i});
  }

  ghost predicate MetBy(preds: seq<nat>, dom: seq<set<nat>>, d: nat)
    requires forall k :: 0 <= k < |preds| ==> preds[k] < |dom|
  {
    forall k :: 0 <= k < |preds| ==> d in dom[preds[k]]
  }

  /** The data-flow inequation at block `i`: what the predecessors agree on is kept. */
  ghost predicate Holds(preds: Graph, dom: seq<set<nat>>, i: nat)
    requires |dom| == |preds| && Closed(preds) && i < |preds|
  {
    preds[i] != [] ==> i in dom[i] && forall d :: MetBy(preds[i], dom, d) ==> d in dom[i]
  }

  /** The equation at block `i`. */
  ghost predicate Stable(preds: Graph, dom: seq<set<nat>>, i: nat)
    requires |dom| == |preds| && Closed(preds) && i < |preds|
  {
    preds[i] != [] ==> forall d :: d in dom[i] <==> d == i || MetBy(preds[i], dom, d)
  }

  ghost function TotalSize(dom: seq<set<nat>>): nat {
    if dom == [] then 0 else |dom[0]| + TotalSize(dom[1..])
  }

  lemma {:induction false} TotalSizeUpdate(dom: seq<set<nat>>, i: nat, s: set<nat>)
    requires i < |dom| && s < dom[i]
    ensures TotalSize(dom[i := s]) < TotalSize(dom)
    decreases i
  {
    Smaller(s, dom[i]);
    if i == 0 {
      assert dom[i := s][1..] == dom[1..];
    } else {
      assert dom[i := s][1..] == dom[1..][i - 1 := s];
      TotalSizeUpdate(dom[1..], i - 1, s);
    }
  }

  lemma Smaller<T>(a: set<T>, b: set<T>)
    requires a < b
    ensures |a| < |b|
  {
    var x :| x in b && x !in a;
    assert b == a + (b - a);
    assert |b - a| > 0;
  }

  method Dominators(g: Graph) returns (dom: seq<set<nat>>)
    requires Closed(g) && |g| > 0
    ensures IsDominatorTable(g, dom)
  {
    var preds := BuildPreds(g);
    var full := UpTo(|g|);
    dom := seq(|g|, _ => full);
    dom := dom[0 := {0}];
    forall d: nat | d < |g| && Dominates(g, d, 0) ensures d in dom[0] {
      assert PathFromTo(g, [0], 0, 0);
    }
    forall i | 1 <= i < |g| ensures Holds(preds, dom, i) {
      if preds[i] != [] {
        assert preds[i][0] < |g|;
        assert forall d :: MetBy(preds[i], dom, d) ==> d in dom[preds[i][0]];
      }
    }
    var changed := true;
    while changed
      invariant |dom| == |g| && dom[0] == {0}
      invariant forall i :: 0 <= i < |g| ==> dom[i] <= full
      invariant forall i :: 1 <= i < |g| ==> Holds(preds, dom, i)
      invariant forall i, d :: 0 <= i < |g| && 0 <= d < |g| && Dominates(g, d, i) ==> d in dom[i]
      invariant !changed ==> forall i :: 1 <= i < |g| ==> Stable(preds, dom, i)
      decreases TotalSize(dom), changed
    {
      changed := false;
      ghost var size0 := TotalSize(dom);
      for i := 1 to |g|
        invariant |dom| == |g| && dom[0] == {0}
        invariant forall j :: 0 <= j < |g| ==> dom[j] <= full
        invariant forall j :: 1 <= j < |g| ==> Holds(preds, dom, j)
        invariant forall j, d :: 0 <= j < |g| && 0 <= d < |g| && Dominates(g, d, j) ==> d in dom[j]
        invariant !changed ==> TotalSize(dom) == size0 && forall j :: 1 <= j < i ==> Stable(preds, dom, j)
        invariant changed ==> TotalSize(dom) < size0
      {
        var d := MeetPreds(preds[i], dom, i);
        if d.Some? {
          if d.value != dom[i] {
            Sweep(g, preds, dom, i, d.value, dom[i := d.value]);
            TotalSizeUpdate(dom, i, d.value);
            dom := dom[i := d.value];
            changed := true;
          }
        }
      }
    }
    forall i, d | 0 <= i < |g| && 0 <= d < |g| && d in dom[i] ensures Dominates(g, d, i) {
      forall p | PathFromTo(g, p, 0, i) ensures d in p {
        FixpointOnPath(g, preds, dom, p, d);
      }
    }
  }

  /** One update keeps every true dominator and every inequation, and only shrinks the set. */
  lemma Sweep(g: Graph, preds: Graph, dom: seq<set<nat>>, i: nat, s: set<nat>,
              dom': seq<set<nat>>)
    requires Closed(g) && Transposed(g, preds) && |dom| == |g| && 1 <= i < |g|
    requires dom' == dom[i := s]
    requires forall j :: 1 <= j < |g| ==> Holds(preds, dom, j)
    requires forall j, d :: 0 <= j < |g| && 0 <= d < |g| && Dominates(g, d, j) ==> d in dom[j]
    requires preds[i] != [] && forall d :: d in s <==> d == i || MetBy(preds[i], dom, d)
    ensures s <= dom[i]
    ensures forall j :: 1 <= j < |g| ==> Holds(preds, dom', j)
    ensures forall d :: 0 <= d < |g| && Dominates(g, d, i) ==> d in s
  {
    assert Holds(preds, dom, i);
    forall j, d | 1 <= j < |g| && preds[j] != [] && MetBy(preds[j], dom', d) ensures d in dom'[j] {
      forall k | 0 <= k < |preds[j]| ensures d in dom[preds[j][k]] {
        assert d in dom'[preds[j][k]];
      }
      assert MetBy(preds[j], dom, d);
      assert Holds(preds, dom, j);
    }
    forall j | 1 <= j < |g| ensures Holds(preds, dom', j) {
      assert Holds(preds, dom, j);
    }
    forall d | 0 <= d < |g| && Dominates(g, d, i) && d != i ensures MetBy(preds[i], dom, d) {
      forall k | 0 <= k < |preds[i]| ensures d in dom[preds[i][k]] {
        DominatorOfPred(g, d, i, preds[i][k], preds);
      }
    }
  }

  lemma DominatorOfPred(g: Graph, d: nat, i: nat, p: nat, preds: Graph)
    requires Closed(g) && Transposed(g, preds) && i < |g| && p in preds[i] && d != i
    requires Dominates(g, d, i)
    ensures Dominates(g, d, p)
  {
    assert Edge(preds, i, p);
    forall q | PathFromTo(g, q, 0, p) ensures d in q {
      Snoc(g, q, 0, p, i);
      assert d in q + [i];
    }
  }

  lemma {:induction false} FixpointOnPath(g: Graph, preds: Graph, dom: seq<set<nat>>, p: seq<nat>, d: nat)
    requires Closed(g) && Transposed(g, preds) && |dom| == |g| && |g| > 0 && dom[0] == {0}
    requires forall i :: 1 <= i < |g| ==> Stable(preds, dom, i)
    requires IsPath(g, p) && p[0] == 0 && p[|p| - 1] < |g| && d in dom[p[|p| - 1]]
    ensures d in p
    decreases |p|
  {
    var i := p[|p| - 1];
    if d != i && i != 0 {
      var q := p[..|p| - 1];
      assert Edge(g, p[|p| - 2], i);
      var b := p[|p| - 2];
      assert Edge(preds, i, b);
      assert Stable(preds, dom, i);
      assert d in dom[b];
      Slice(g, p, 0, |p| - 2);
      assert p[0..|p| - 1] == q;
      FixpointOnPath(g, preds, dom, q, d);
    }
  }
}
