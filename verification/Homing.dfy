/** The windows that let a value live at a fixed home instead of its slot: nothing that
    could overwrite the home may run between the write and the read, on any path. */
module Homing {
  import opened Ir
  import opened Cfg

  predicate IsCall(i: Inst) { i.Call? }

  predicate Clobbers(i: Inst) { i.Call? || i.Asm? }

  /** No instruction of `b[from..to]` satisfies the predicate. */
  ghost predicate Clean(b: Block, lo: nat, hi: nat, bad: Inst -> bool) {
    forall q :: lo <= q < hi && q < |b| ==> !bad(b[q])
  }

  /** Along block path `p`, nothing bad runs after position `q` of step `k` and before
      position `r` of step `m`. */
  ghost predicate WindowClean(blocks: seq<Block>, p: seq<nat>, k: nat, q: nat, m: nat, r: nat,
                              bad: Inst -> bool)
    requires m < |p| && forall j :: 0 <= j < |p| ==> p[j] < |blocks|
  {
    && (k == m ==> Clean(blocks[p[m]], q + 1, r, bad))
    && (k < m ==>
          && Clean(blocks[p[k]], q + 1, |blocks[p[k]]|, bad)
          && (forall j :: k < j < m ==> Clean(blocks[p[j]], 0, |blocks[p[j]]|, bad))
          && Clean(blocks[p[m]], 0, r, bad))
  }

  /** On every path from the entry, each visit of `useAt` is preceded by a visit of `defAt`
      with a clean window in between. */
  ghost predicate Guarded(blocks: seq<Block>, g: Graph, defAt: (nat, nat), useAt: (nat, nat),
                          bad: Inst -> bool)
    requires |g| == |blocks|
  {
    forall p, m :: IsPath(g, p) && p[0] == 0 && 0 <= m < |p| && p[m] == useAt.0 ==>
      exists k :: 0 <= k <= m && p[k] == defAt.0 && (k == m ==> defAt.1 < useAt.1) && InBlocks(blocks, p)
        && WindowClean(blocks, p, k, defAt.1, m, useAt.1, bad)
  }

  ghost predicate InBlocks(blocks: seq<Block>, p: seq<nat>) {
    forall j :: 0 <= j < |p| ==> p[j] < |blocks|
  }

  lemma PathInBlocks(blocks: seq<Block>, g: Graph, p: seq<nat>)
    requires |g| == |blocks| && IsPath(g, p)
    ensures InBlocks(blocks, p)
  {
    forall j | 0 <= j < |p| ensures p[j] < |blocks| {
      Slice(g, p, j, j);
    }
  }

  method AnyIn(b: Block, lo: nat, hi: nat, bad: Inst -> bool) returns (r: bool)
    requires lo <= hi <= |b|
    ensures r <==> !Clean(b, lo, hi, bad)
  {
    for q := lo to hi
      invariant Clean(b, lo, q, bad)
    {
      if bad(b[q]) { return true; }
    }
    r := false;
  }

  /** The blocks on a path from `a` to `b`, apart from those in `skip`. */
  method BetweenClean(blocks: seq<Block>, g: Graph, preds: Graph, a: nat, b: nat, skip: set<nat>,
                      bad: Inst -> bool)
    returns (r: bool)
    requires |g| == |blocks| && Closed(g) && Transposed(g, preds) && a < |g| && b < |g|
    ensures r <==> forall v: nat :: v < |g| && v !in skip && Reaches(g, a, v) && Reaches(g, v, b) ==>
                     Clean(blocks[v], 0, |blocks[v]|, bad)
  {
    var fwd := Closure(g, a);
    var bwd := CoClosure(g, preds, b);
    var todo := fwd * bwd;
    while todo != {}
      invariant todo <= fwd * bwd
      invariant forall v :: v in fwd * bwd && v !in todo && v !in skip ==>
        v < |g| && Clean(blocks[v], 0, |blocks[v]|, bad)
    {
      var v :| v in todo;
      assert v < |g| by {
        var p :| PathFromTo(g, p, a, v);
        Slice(g, p, |p| - 1, |p| - 1);
      }
      if v !in skip {
        var hit := AnyIn(blocks[v], 0, |blocks[v]|, bad);
        if hit { return false; }
      }
      todo := todo - {v};
    }
    r := true;
  }

  /** Two ends that run at most once, and clean blocks in between, give a clean window. */
  lemma WindowFromPieces(blocks: seq<Block>, g: Graph, p: seq<nat>, k: nat, q: nat, m: nat, r: nat,
                         bad: Inst -> bool)
    requires |g| == |blocks| && Closed(g) && IsPath(g, p) && k < m < |p| && InBlocks(blocks, p)
    requires !OnCycle(g, p[k]) && !OnCycle(g, p[m])
    requires Clean(blocks[p[k]], q + 1, |blocks[p[k]]|, bad) && Clean(blocks[p[m]], 0, r, bad)
    requires forall v: nat :: v < |g| && v != p[k] && v != p[m] && Reaches(g, p[k], v) && Reaches(g, v, p[m]) ==>
               Clean(blocks[v], 0, |blocks[v]|, bad)
    ensures WindowClean(blocks, p, k, q, m, r, bad)
  {
    forall j | k < j < m ensures Clean(blocks[p[j]], 0, |blocks[p[j]]|, bad) {
      Slice(g, p, k, j);
      Slice(g, p, j, m);
      assert |p[k..j + 1]| > 1 && |p[j..m + 1]| > 1;
    }
  }

  /** The last visit of a dominating block before step `m`. */
  lemma DominatorVisit(g: Graph, p: seq<nat>, m: nat, d: nat) returns (k: nat)
    requires IsPath(g, p) && p[0] == 0 && m < |p| && Dominates(g, d, p[m])
    ensures k <= m && p[k] == d
  {
    Slice(g, p, 0, m);
    var q := p[0..m + 1];
    assert d in q;
    k :| 0 <= k < |q| && q[k] == d;
  }

  /** Retval homing: the result of a call may stay in the fixed return bytes up to its read. */
  method ResultHomeOk(blocks: seq<Block>, g: Graph, dom: seq<set<nat>>,
                      callBlock: nat, callPos: nat, useBlock: nat, usePos: nat) returns (r: bool)
    requires |g| == |blocks| && Closed(g) && IsDominatorTable(g, dom)
    requires callBlock < |g| && useBlock < |g|
    requires callPos < |blocks[callBlock]| && usePos <= |blocks[useBlock]|
    ensures r ==> Guarded(blocks, g, (callBlock, callPos), (useBlock, usePos), Clobbers)
    ensures useBlock == callBlock ==>
      (r <==> callPos < usePos && Clean(blocks[callBlock], callPos + 1, usePos, Clobbers))
    ensures useBlock != callBlock ==>
      (r <==> Dominates(g, callBlock, useBlock) && RunsOnce(g, callBlock, useBlock)
              && PiecesClean(blocks, g, callBlock, callPos, useBlock, usePos, Clobbers))
    ensures Reaches(g, 0, useBlock) ==>
      (r <==> (useBlock != callBlock ==> RunsOnce(g, callBlock, useBlock))
              && Guarded(blocks, g, (callBlock, callPos), (useBlock, usePos), Clobbers))
  {
    if useBlock == callBlock {
      if usePos <= callPos {
        if Reaches(g, 0, useBlock) && Guarded(blocks, g, (callBlock, callPos), (useBlock, usePos), Clobbers) {
          SameBlockOnly(blocks, g, callBlock, callPos, usePos, Clobbers);
        }
        return false;
      }
      var hit := AnyIn(blocks[callBlock], callPos + 1, usePos, Clobbers);
      if !hit {
        SameBlockGuarded(blocks, g, callBlock, callPos, usePos, Clobbers);
      } else if Reaches(g, 0, useBlock) && Guarded(blocks, g, (callBlock, callPos), (useBlock, usePos), Clobbers) {
        SameBlockOnly(blocks, g, callBlock, callPos, usePos, Clobbers);
      }
      return !hit;
    }
    if Reaches(g, 0, useBlock) && Guarded(blocks, g, (callBlock, callPos), (useBlock, usePos), Clobbers) {
      GuardedDominates(blocks, g, (callBlock, callPos), (useBlock, usePos), Clobbers);
    }
    if callBlock !in dom[useBlock] { return false; }
    r := OnceWindow(blocks, g, callBlock, callPos, useBlock, usePos, Clobbers);
  }

  lemma SameBlockGuarded(blocks: seq<Block>, g: Graph, b: nat, q: nat, r: nat, bad: Inst -> bool)
    requires |g| == |blocks| && b < |g| && q < r && Clean(blocks[b], q + 1, r, bad)
    ensures Guarded(blocks, g, (b, q), (b, r), bad)
  {
    forall p, m | IsPath(g, p) && p[0] == 0 && 0 <= m < |p| && p[m] == b
      ensures exists k :: 0 <= k <= m && p[k] == b && (k == m ==> q < r) && InBlocks(blocks, p)
                && WindowClean(blocks, p, k, q, m, r, bad)
    {
      PathInBlocks(blocks, g, p);
      assert WindowClean(blocks, p, m, q, m, r, bad);
    }
  }

  /** A guard in the use's own block is there on the first visit already. */
  lemma SameBlockOnly(blocks: seq<Block>, g: Graph, b: nat, q: nat, r: nat, bad: Inst -> bool)
    requires |g| == |blocks| && Reaches(g, 0, b) && Guarded(blocks, g, (b, q), (b, r), bad)
    ensures q < r && b < |blocks| && Clean(blocks[b], q + 1, r, bad)
  {
    hide Guarded;
    var p :| PathFromTo(g, p, 0, b);
    var m := FirstVisit(p, b, 0);
    var k := GuardAt(blocks, g, (b, q), (b, r), bad, p, m);
    assert k == m;
  }

  /** The guard of a visit. */
  lemma GuardAt(blocks: seq<Block>, g: Graph, defAt: (nat, nat), useAt: (nat, nat), bad: Inst -> bool,
                p: seq<nat>, m: nat) returns (k: nat)
    requires |g| == |blocks| && Guarded(blocks, g, defAt, useAt, bad)
    requires IsPath(g, p) && p[0] == 0 && m < |p| && p[m] == useAt.0
    ensures k <= m && p[k] == defAt.0 && (k == m ==> defAt.1 < useAt.1) && InBlocks(blocks, p)
    ensures WindowClean(blocks, p, k, defAt.1, m, useAt.1, bad)
  {
    hide IsPath, WindowClean;
    k :| 0 <= k <= m && p[k] == defAt.0 && (k == m ==> defAt.1 < useAt.1) && InBlocks(blocks, p)
      && WindowClean(blocks, p, k, defAt.1, m, useAt.1, bad);
  }

  function FirstVisit(p: seq<nat>, b: nat, k: nat): (m: nat)
    requires k < |p| && p[|p| - 1] == b
    ensures k <= m < |p| && p[m] == b && forall j :: k <= j < m ==> p[j] != b
    decreases |p| - k
  {
    if p[k] == b then k else FirstVisit(p, b, k + 1)
  }

  ghost predicate RunsOnce(g: Graph, a: nat, b: nat) {
    !OnCycle(g, a) && !OnCycle(g, b)
  }

  /** Nothing bad behind `q` in block `a`, ahead of `r` in block `b`, or in a block on the way. */
  ghost predicate PiecesClean(blocks: seq<Block>, g: Graph, a: nat, q: nat, b: nat, r: nat, bad: Inst -> bool)
    requires |g| == |blocks| && a < |g| && b < |g|
  {
    && Clean(blocks[a], q + 1, |blocks[a]|, bad) && Clean(blocks[b], 0, r, bad)
    && forall v: nat :: v < |g| && v != a && v != b && Reaches(g, a, v) && Reaches(g, v, b) ==>
         Clean(blocks[v], 0, |blocks[v]|, bad)
  }

  lemma GuardedDominates(blocks: seq<Block>, g: Graph, defAt: (nat, nat), useAt: (nat, nat), bad: Inst -> bool)
    requires |g| == |blocks| && Guarded(blocks, g, defAt, useAt, bad)
    ensures Dominates(g, defAt.0, useAt.0)
  {
    forall p | PathFromTo(g, p, 0, useAt.0) ensures defAt.0 in p {
      var k := GuardAt(blocks, g, defAt, useAt, bad, p, |p| - 1);
    }
  }

  /** On every path from the entry the guard's window is clean, so all that can stand in it is. */
  lemma GuardedPieces(blocks: seq<Block>, g: Graph, a: nat, q: nat, b: nat, r: nat, bad: Inst -> bool)
    requires |g| == |blocks| && Closed(g) && a < |g| && b < |g| && a != b && Reaches(g, 0, b)
    requires RunsOnce(g, a, b) && Guarded(blocks, g, (a, q), (b, r), bad)
    ensures PiecesClean(blocks, g, a, q, b, r, bad)
  {
    var p :| PathFromTo(g, p, 0, b);
    var ka := GuardOn(blocks, g, a, q, b, r, bad, p);
    Slice(g, p, 0, ka);
    forall v: nat | v < |g| && v != a && v != b && Reaches(g, a, v) && Reaches(g, v, b)
      ensures Clean(blocks[v], 0, |blocks[v]|, bad)
    {
      var p1 :| PathFromTo(g, p1, a, v);
      var p2 :| PathFromTo(g, p2, v, b);
      ThroughClean(blocks, g, a, q, b, r, bad, p[0..ka + 1], p1, p2, v);
    }
  }

  /** The guard of the last step of `p`, which ends in the use's block. */
  lemma GuardOn(blocks: seq<Block>, g: Graph, a: nat, q: nat, b: nat, r: nat, bad: Inst -> bool, p: seq<nat>)
      returns (k: nat)
    requires |g| == |blocks| && a != b && PathFromTo(g, p, 0, b) && Guarded(blocks, g, (a, q), (b, r), bad)
    ensures k < |p| - 1 && p[k] == a && InBlocks(blocks, p) && WindowClean(blocks, p, k, q, |p| - 1, r, bad)
  {
    k := GuardAt(blocks, g, (a, q), (b, r), bad, p, |p| - 1);
  }

  lemma ThroughClean(blocks: seq<Block>, g: Graph, a: nat, q: nat, b: nat, r: nat, bad: Inst -> bool,
                     p0: seq<nat>, p1: seq<nat>, p2: seq<nat>, v: nat)
    requires |g| == |blocks| && v < |g| && a != b && v != a && v != b && !OnCycle(g, a)
    requires Guarded(blocks, g, (a, q), (b, r), bad)
    requires PathFromTo(g, p0, 0, a) && PathFromTo(g, p1, a, v) && PathFromTo(g, p2, v, b)
    ensures Clean(blocks[v], 0, |blocks[v]|, bad)
  {
    hide Guarded;
    Join(g, p0, p1, 0, a, v);
    var p01 := p0 + p1[1..];
    Join(g, p01, p2, 0, v, b);
    var w := p01 + p2[1..];
    var k := GuardOn(blocks, g, a, q, b, r, bad, w);
    var ka, kv := |p0| - 1, |p01| - 1;
    assert w[ka] == a && w[kv] == v && ka < kv < |w| - 1;
    if k > ka { Again(g, w, ka, k); }
    assert k < kv;
  }

  /** A block visited twice is on a cycle. */
  lemma Again(g: Graph, p: seq<nat>, i: nat, j: nat)
    requires IsPath(g, p) && i < j < |p| && p[i] == p[j]
    ensures OnCycle(g, p[i])
  {
    Slice(g, p, i, j);
    assert |p[i..j + 1]| > 1;
  }

  /** The part `cross_block_ok` and `result_home_ok` share: both ends run at most once, and
      no bad instruction follows the first, precedes the second, or stands between. */
  method OnceWindow(blocks: seq<Block>, g: Graph, a: nat, q: nat, b: nat, r: nat, bad: Inst -> bool)
    returns (ok: bool)
    requires |g| == |blocks| && Closed(g) && a < |g| && b < |g| && a != b
    requires q < |blocks[a]| && r <= |blocks[b]| && Dominates(g, a, b)
    ensures ok ==> Guarded(blocks, g, (a, q), (b, r), bad)
    ensures ok <==> RunsOnce(g, a, b) && PiecesClean(blocks, g, a, q, b, r, bad)
    ensures Reaches(g, 0, b) ==> (ok <==> RunsOnce(g, a, b) && Guarded(blocks, g, (a, q), (b, r), bad))
  {
    if Reaches(g, 0, b) && RunsOnce(g, a, b) && Guarded(blocks, g, (a, q), (b, r), bad) {
      GuardedPieces(blocks, g, a, q, b, r, bad);
    }
    var selfA := SelfReachable(g, a);
    if selfA { return false; }
    var selfB := SelfReachable(g, b);
    if selfB { return false; }
    var hit := AnyIn(blocks[a], q + 1, |blocks[a]|, bad);
    if hit { return false; }
    hit := AnyIn(blocks[b], 0, r, bad);
    if hit { return false; }
    var preds := BuildPreds(g);
    ok := BetweenClean(blocks, g, preds, a, b, {a, b}, bad);
    if ok {
      forall p, m | IsPath(g, p) && p[0] == 0 && 0 <= m < |p| && p[m] == b
        ensures exists k :: 0 <= k <= m && p[k] == a && (k == m ==> q < r) && InBlocks(blocks, p)
                  && WindowClean(blocks, p, k, q, m, r, bad)
      {
        PathInBlocks(blocks, g, p);
        var k := DominatorVisit(g, p, m, a);
        WindowFromPieces(blocks, g, p, k, q, m, r, bad);
      }
    }
  }

  /** Argument homing across blocks: the value may be written straight into the callee's
      parameter. Asked only for a definition and a call in different blocks. */
  method CrossBlockOk(blocks: seq<Block>, g: Graph, defBlock: nat, defPos: nat, callBlock: nat, callPos: nat)
    returns (r: bool)
    requires |g| == |blocks| && Closed(g) && |g| > 0
    requires defBlock < |g| && callBlock < |g| && defBlock != callBlock
    requires defPos < |blocks[defBlock]| && callPos < |blocks[callBlock]|
    ensures r ==> Guarded(blocks, g, (defBlock, defPos), (callBlock, callPos), IsCall)
    ensures r <==> Dominates(g, defBlock, callBlock) && RunsOnce(g, defBlock, callBlock)
                   && PiecesClean(blocks, g, defBlock, defPos, callBlock, callPos, IsCall)
    ensures Reaches(g, 0, callBlock) ==>
      (r <==> RunsOnce(g, defBlock, callBlock)
              && Guarded(blocks, g, (defBlock, defPos), (callBlock, callPos), IsCall))
  {
    if Reaches(g, 0, callBlock) && Guarded(blocks, g, (defBlock, defPos), (callBlock, callPos), IsCall) {
      GuardedDominates(blocks, g, (defBlock, defPos), (callBlock, callPos), IsCall);
    }
    var dom := Dominators(g);
    if defBlock !in dom[callBlock] { return false; }
    r := OnceWindow(blocks, g, defBlock, defPos, callBlock, callPos, IsCall);
  }

  /** No call precedes position `r` of step `m` on the path. */
  ghost predicate QuietUpTo(blocks: seq<Block>, p: seq<nat>, m: nat, r: nat)
    requires m < |p| && InBlocks(blocks, p)
  {
    && (forall j :: 0 <= j < m ==> Clean(blocks[p[j]], 0, |blocks[p[j]]|, IsCall))
    && Clean(blocks[p[m]], 0, r, IsCall)
  }

  /** Homed parameters: accepted exactly when the call is not on a cycle and no path from
      the entry runs another call before it. */
  method EntryPathOk(blocks: seq<Block>, g: Graph, callBlock: nat, callPos: nat) returns (r: bool)
    requires |g| == |blocks| && Closed(g) && callBlock < |g| && callPos < |blocks[callBlock]|
    ensures r <==>
      && !OnCycle(g, callBlock)
      && forall p, m :: IsPath(g, p) && p[0] == 0 && 0 <= m < |p| && p[m] == callBlock && InBlocks(blocks, p) ==>
           QuietUpTo(blocks, p, m, callPos)
  {
    var again := SelfReachable(g, callBlock);
    if again { return false; }
    var preds := BuildPreds(g);
    var fwd := Closure(g, 0);
    if callBlock !in fwd {
      forall p, m | IsPath(g, p) && p[0] == 0 && 0 <= m < |p| && p[m] == callBlock ensures false {
        Slice(g, p, 0, m);
      }
      return true;
    }
    var hitPrefix := AnyIn(blocks[callBlock], 0, callPos, IsCall);
    if hitPrefix {
      ghost var p :| PathFromTo(g, p, 0, callBlock);
      PathInBlocks(blocks, g, p);
      assert !QuietUpTo(blocks, p, |p| - 1, callPos);
      return false;
    }
    var between := BetweenClean(blocks, g, preds, 0, callBlock, {callBlock}, IsCall);
    if between {
      forall p, m | IsPath(g, p) && p[0] == 0 && 0 <= m < |p| && p[m] == callBlock && InBlocks(blocks, p)
        ensures QuietUpTo(blocks, p, m, callPos)
      {
        forall j | 0 <= j < m ensures Clean(blocks[p[j]], 0, |blocks[p[j]]|, IsCall) {
          Slice(g, p, 0, j);
          Slice(g, p, j, m);
          assert |p[j..m + 1]| > 1;
        }
      }
    } else {
      ghost var v: nat :| v < |g| && v != callBlock && Reaches(g, 0, v) && Reaches(g, v, callBlock)
        && !Clean(blocks[v], 0, |blocks[v]|, IsCall);
      NoisyPath(blocks, g, v, callBlock, callPos);
    }
    r := between;
  }

  lemma NoisyPath(blocks: seq<Block>, g: Graph, v: nat, callBlock: nat, callPos: nat)
    requires |g| == |blocks| && Closed(g) && v < |g| && v != callBlock
    requires Reaches(g, 0, v) && Reaches(g, v, callBlock) && !Clean(blocks[v], 0, |blocks[v]|, IsCall)
    ensures exists p, m :: IsPath(g, p) && p[0] == 0 && 0 <= m < |p| && p[m] == callBlock && InBlocks(blocks, p)
              && !QuietUpTo(blocks, p, m, callPos)
  {
    var p :| PathFromTo(g, p, 0, v);
    var q :| PathFromTo(g, q, v, callBlock);
    Join(g, p, q, 0, v, callBlock);
    var w := p + q[1..];
    PathInBlocks(blocks, g, w);
    assert w[|p| - 1] == v;
    assert !QuietUpTo(blocks, w, |w| - 1, callPos);
  }
}
