/** What the homing windows are for: on a machine where only calls, inline assembly and the
    definition itself may overwrite a home, a window is quiet exactly when every run finds at the
    use what the last visit of the definition left. */
module HomingRuns {
  import opened Wrappers
  import opened Ir
  import opened Cfg
  import opened Homing

  /** The home ahead of position `q` of step `j` of a path. */
  type Home = (nat, nat) -> int

  /** The instruction at `q` of block `b` may leave anything in the home: a call, inline assembly
      where it can reach the bytes, and the definition that is to live there. */
  predicate May(blocks: seq<Block>, def: Option<(nat, nat)>, asm: bool, b: nat, q: nat)
    requires b < |blocks| && q < |blocks[b]|
  {
    blocks[b][q].Call? || (asm && blocks[b][q].Asm?) || def == Some((b, q))
  }

  ghost predicate HomeRun(blocks: seq<Block>, p: seq<nat>, def: Option<(nat, nat)>, asm: bool, h: Home) {
    && InBlocks(blocks, p)
    && (forall j: nat, q: nat :: j < |p| && q < |blocks[p[j]]| && !May(blocks, def, asm, p[j], q) ==>
          h(j, q + 1) == h(j, q))
    && (forall j: nat :: j + 1 < |p| ==> h(j + 1, 0) == h(j, |blocks[p[j]]|))
  }

  /** Step `k` is the last visit of the definition ahead of the use at step `m`. */
  ghost predicate LastVisit(p: seq<nat>, k: nat, m: nat, defAt: (nat, nat), useAt: (nat, nat))
    requires m < |p|
  {
    && k <= m && p[k] == defAt.0 && (k == m ==> defAt.1 < useAt.1)
    && forall j :: k < j <= m && p[j] == defAt.0 ==> j == m && useAt.1 <= defAt.1
  }

  /** A path from the entry that is in block `b` at step `m`. */
  ghost predicate Visit(g: Graph, p: seq<nat>, m: nat, b: nat) {
    IsPath(g, p) && p[0] == 0 && m < |p| && p[m] == b
  }

  /** On every run, the use finds what the last visit of the definition left. */
  ghost predicate HomeHolds(blocks: seq<Block>, g: Graph, defAt: (nat, nat), useAt: (nat, nat), asm: bool) {
    forall p, m: nat, h :: Visit(g, p, m, useAt.0) && HomeRun(blocks, p, Some(defAt), asm, h) ==>
      FoundAt(p, m, defAt, useAt, h)
  }

  ghost predicate FoundAt(p: seq<nat>, m: nat, defAt: (nat, nat), useAt: (nat, nat), h: Home)
    requires m < |p|
  {
    exists k: nat :: LastVisit(p, k, m, defAt, useAt) && h(m, useAt.1) == h(k, defAt.1 + 1)
  }

  function Bad(asm: bool): Inst -> bool {
    if asm then Clobbers else IsCall
  }

  // ---- A quiet stretch keeps the home ------------------------------------------------

  ghost predicate Still(blocks: seq<Block>, def: Option<(nat, nat)>, asm: bool, b: nat, lo: nat, hi: nat)
    requires b < |blocks|
  {
    forall q: nat :: lo <= q < hi && q < |blocks[b]| ==> !May(blocks, def, asm, b, q)
  }

  lemma {:induction false} StillIn(blocks: seq<Block>, p: seq<nat>, def: Option<(nat, nat)>, asm: bool, h: Home,
                                   j: nat, lo: nat, hi: nat)
    requires HomeRun(blocks, p, def, asm, h) && j < |p| && lo <= hi <= |blocks[p[j]]|
    requires Still(blocks, def, asm, p[j], lo, hi)
    ensures h(j, lo) == h(j, hi)
    decreases hi
  {
    if lo < hi {
      StillIn(blocks, p, def, asm, h, j, lo, hi - 1);
      assert !May(blocks, def, asm, p[j], hi - 1);
    }
  }

  /** From the end of step `k` to position `r` of a later step `m`. */
  lemma {:induction false} StillOn(blocks: seq<Block>, p: seq<nat>, def: Option<(nat, nat)>, asm: bool, h: Home,
                                   k: nat, m: nat, r: nat)
    requires HomeRun(blocks, p, def, asm, h) && k < m < |p| && r <= |blocks[p[m]]|
    requires forall j :: k < j < m ==> Still(blocks, def, asm, p[j], 0, |blocks[p[j]]|)
    requires Still(blocks, def, asm, p[m], 0, r)
    ensures h(m, r) == h(k, |blocks[p[k]]|)
    decreases m
  {
    hide Still;
    StillIn(blocks, p, def, asm, h, m, 0, r);
    if k + 1 < m { StillOn(blocks, p, def, asm, h, k, m - 1, |blocks[p[m - 1]]|); }
  }

  // ---- The run that tells every overwrite apart --------------------------------------

  /** How often the home may have been overwritten ahead of position `q` of step `j`. */
  function Count(blocks: seq<Block>, p: seq<nat>, def: Option<(nat, nat)>, asm: bool, j: nat, q: nat): nat
    decreases j, q
  {
    if q > 0 then
      Count(blocks, p, def, asm, j, q - 1)
      + if j < |p| && p[j] < |blocks| && q - 1 < |blocks[p[j]]| && May(blocks, def, asm, p[j], q - 1) then 1 else 0
    else if j > 0 && j <= |p| && p[j - 1] < |blocks| then Count(blocks, p, def, asm, j - 1, |blocks[p[j - 1]]|)
    else 0
  }

  function Counter(blocks: seq<Block>, p: seq<nat>, def: Option<(nat, nat)>, asm: bool): Home {
    (j: nat, q: nat) => Count(blocks, p, def, asm, j, q)
  }

  lemma CounterRuns(blocks: seq<Block>, p: seq<nat>, def: Option<(nat, nat)>, asm: bool)
    requires InBlocks(blocks, p)
    ensures HomeRun(blocks, p, def, asm, Counter(blocks, p, def, asm))
  {
  }

  lemma {:induction false} CountIn(blocks: seq<Block>, p: seq<nat>, def: Option<(nat, nat)>, asm: bool,
                                   j: nat, lo: nat, hi: nat)
    requires InBlocks(blocks, p) && j < |p| && lo <= hi <= |blocks[p[j]]|
    ensures Count(blocks, p, def, asm, j, lo) <= Count(blocks, p, def, asm, j, hi)
    ensures Count(blocks, p, def, asm, j, lo) == Count(blocks, p, def, asm, j, hi) ==>
              Still(blocks, def, asm, p[j], lo, hi)
    decreases hi
  {
    if lo < hi { CountIn(blocks, p, def, asm, j, lo, hi - 1); }
  }

  lemma {:induction false} CountOn(blocks: seq<Block>, p: seq<nat>, def: Option<(nat, nat)>, asm: bool,
                                   k: nat, m: nat, r: nat)
    requires InBlocks(blocks, p) && k < m < |p| && r <= |blocks[p[m]]|
    ensures Count(blocks, p, def, asm, k, |blocks[p[k]]|) <= Count(blocks, p, def, asm, m, r)
    ensures Count(blocks, p, def, asm, k, |blocks[p[k]]|) == Count(blocks, p, def, asm, m, r) ==>
              && Still(blocks, def, asm, p[m], 0, r)
              && forall j :: k < j < m ==> Still(blocks, def, asm, p[j], 0, |blocks[p[j]]|)
    decreases m
  {
    hide Still, May;
    CountIn(blocks, p, def, asm, m, 0, r);
    if k + 1 < m { CountOn(blocks, p, def, asm, k, m - 1, |blocks[p[m - 1]]|); }
  }

  // ---- The windows -------------------------------------------------------------------

  lemma StillIsClean(blocks: seq<Block>, def: Option<(nat, nat)>, asm: bool, b: nat, lo: nat, hi: nat)
    requires b < |blocks| && forall d :: def == Some(d) && d.0 == b ==> !(lo <= d.1 < hi)
    ensures Clean(blocks[b], lo, hi, Bad(asm)) <==> Still(blocks, def, asm, b, lo, hi)
  {
    if Clean(blocks[b], lo, hi, Bad(asm)) {
      forall q: nat | lo <= q < hi && q < |blocks[b]| ensures !May(blocks, def, asm, b, q) {
        assert !Bad(asm)(blocks[b][q]);
      }
    }
    if Still(blocks, def, asm, b, lo, hi) {
      forall q | lo <= q < hi && q < |blocks[b]| ensures !Bad(asm)(blocks[b][q]) {
        assert !May(blocks, def, asm, b, q);
      }
    }
  }

  lemma StillThenClean(blocks: seq<Block>, def: Option<(nat, nat)>, asm: bool, b: nat, lo: nat, hi: nat)
    requires b < |blocks| && Still(blocks, def, asm, b, lo, hi)
    ensures Clean(blocks[b], lo, hi, Bad(asm))
  {
    forall q | lo <= q < hi && q < |blocks[b]| ensures !Bad(asm)(blocks[b][q]) {
      assert !May(blocks, def, asm, b, q);
    }
  }

  ghost predicate InText(blocks: seq<Block>, defAt: (nat, nat), useAt: (nat, nat)) {
    defAt.0 < |blocks| && defAt.1 < |blocks[defAt.0]| && useAt.0 < |blocks| && useAt.1 <= |blocks[useAt.0]|
  }

  lemma LastExists(p: seq<nat>, k: nat, m: nat, defAt: (nat, nat), useAt: (nat, nat)) returns (l: nat)
    requires k <= m < |p| && p[k] == defAt.0 && (k == m ==> defAt.1 < useAt.1)
    ensures k <= l && LastVisit(p, l, m, defAt, useAt)
    decreases m - k
  {
    if LastVisit(p, k, m, defAt, useAt) {
      l := k;
    } else {
      var j :| k < j <= m && p[j] == defAt.0 && !(j == m && useAt.1 <= defAt.1);
      l := LastExists(p, j, m, defAt, useAt);
    }
  }

  /** A quiet window keeps what the last visit left. */
  lemma WindowKeeps(blocks: seq<Block>, p: seq<nat>, k: nat, m: nat, defAt: (nat, nat), useAt: (nat, nat), asm: bool,
                    h: Home)
    requires InText(blocks, defAt, useAt) && HomeRun(blocks, p, Some(defAt), asm, h)
    requires m < |p| && p[m] == useAt.0 && LastVisit(p, k, m, defAt, useAt)
    requires WindowClean(blocks, p, k, defAt.1, m, useAt.1, Bad(asm))
    ensures h(m, useAt.1) == h(k, defAt.1 + 1)
  {
    hide HomeRun, Still, Clean;
    var d := Some(defAt);
    if k == m {
      StillIsClean(blocks, d, asm, p[m], defAt.1 + 1, useAt.1);
      StillIn(blocks, p, d, asm, h, m, defAt.1 + 1, useAt.1);
    } else {
      RunInBlocks(blocks, p, d, asm, h);
      StillIsClean(blocks, d, asm, p[k], defAt.1 + 1, |blocks[p[k]]|);
      StillIn(blocks, p, d, asm, h, k, defAt.1 + 1, |blocks[p[k]]|);
      forall j | k < j < m ensures Still(blocks, d, asm, p[j], 0, |blocks[p[j]]|) {
        StillIsClean(blocks, d, asm, p[j], 0, |blocks[p[j]]|);
      }
      StillIsClean(blocks, d, asm, p[m], 0, useAt.1);
      StillOn(blocks, p, d, asm, h, k, m, useAt.1);
    }
  }

  lemma RunInBlocks(blocks: seq<Block>, p: seq<nat>, def: Option<(nat, nat)>, asm: bool, h: Home)
    requires HomeRun(blocks, p, def, asm, h)
    ensures InBlocks(blocks, p)
  {
  }

  /** The counting run keeps only over quiet windows. */
  lemma CountedWindow(blocks: seq<Block>, p: seq<nat>, k: nat, m: nat, defAt: (nat, nat), useAt: (nat, nat), asm: bool)
    requires InText(blocks, defAt, useAt) && InBlocks(blocks, p)
    requires m < |p| && p[m] == useAt.0 && LastVisit(p, k, m, defAt, useAt)
    requires Count(blocks, p, Some(defAt), asm, m, useAt.1) == Count(blocks, p, Some(defAt), asm, k, defAt.1 + 1)
    ensures WindowClean(blocks, p, k, defAt.1, m, useAt.1, Bad(asm))
  {
    hide Count, Still, Clean;
    var d := Some(defAt);
    if k == m {
      CountIn(blocks, p, d, asm, m, defAt.1 + 1, useAt.1);
      StillThenClean(blocks, d, asm, p[m], defAt.1 + 1, useAt.1);
    } else {
      CountIn(blocks, p, d, asm, k, defAt.1 + 1, |blocks[p[k]]|);
      CountOn(blocks, p, d, asm, k, m, useAt.1);
      StillThenClean(blocks, d, asm, p[k], defAt.1 + 1, |blocks[p[k]]|);
      forall j | k < j < m ensures Clean(blocks[p[j]], 0, |blocks[p[j]]|, Bad(asm)) {
        StillThenClean(blocks, d, asm, p[j], 0, |blocks[p[j]]|);
      }
      StillThenClean(blocks, d, asm, p[m], 0, useAt.1);
    }
  }

  /** A later visit in the window has a quiet window of its own. */
  lemma LaterWindow(blocks: seq<Block>, p: seq<nat>, k: nat, l: nat, q: nat, m: nat, r: nat, bad: Inst -> bool)
    requires InBlocks(blocks, p) && k <= l <= m < |p| && WindowClean(blocks, p, k, q, m, r, bad)
    ensures WindowClean(blocks, p, l, q, m, r, bad)
  {
  }

  /** A window is quiet on every path exactly when every run finds its value at the use. */
  lemma WindowExact(blocks: seq<Block>, g: Graph, defAt: (nat, nat), useAt: (nat, nat), asm: bool)
    requires |g| == |blocks| && InText(blocks, defAt, useAt)
    ensures Guarded(blocks, g, defAt, useAt, Bad(asm)) <==> HomeHolds(blocks, g, defAt, useAt, asm)
  {
    hide WindowClean, LastVisit, HomeRun, Count;
    if Guarded(blocks, g, defAt, useAt, Bad(asm)) {
      forall p, m: nat, h | Visit(g, p, m, useAt.0) && HomeRun(blocks, p, Some(defAt), asm, h)
        ensures FoundAt(p, m, defAt, useAt, h)
      {
        GuardedHolds(blocks, g, defAt, useAt, asm, p, m, h);
      }
    }
    if HomeHolds(blocks, g, defAt, useAt, asm) {
      forall p, m: nat | IsPath(g, p) && p[0] == 0 && 0 <= m < |p| && p[m] == useAt.0
        ensures exists k :: 0 <= k <= m && p[k] == defAt.0 && (k == m ==> defAt.1 < useAt.1) && InBlocks(blocks, p)
                  && WindowClean(blocks, p, k, defAt.1, m, useAt.1, Bad(asm))
      {
        var k := HoldsWindow(blocks, g, defAt, useAt, asm, p, m);
      }
    }
  }

  lemma GuardedHolds(blocks: seq<Block>, g: Graph, defAt: (nat, nat), useAt: (nat, nat), asm: bool,
                     p: seq<nat>, m: nat, h: Home)
    requires |g| == |blocks| && InText(blocks, defAt, useAt) && Guarded(blocks, g, defAt, useAt, Bad(asm))
    requires Visit(g, p, m, useAt.0) && HomeRun(blocks, p, Some(defAt), asm, h)
    ensures FoundAt(p, m, defAt, useAt, h)
  {
    hide Guarded, WindowClean, HomeRun, InText;
    var k := GuardAt(blocks, g, defAt, useAt, Bad(asm), p, m);
    var l := LastExists(p, k, m, defAt, useAt);
    LaterWindow(blocks, p, k, l, defAt.1, m, useAt.1, Bad(asm));
    WindowKeeps(blocks, p, l, m, defAt, useAt, asm, h);
  }

  lemma HoldsWindow(blocks: seq<Block>, g: Graph, defAt: (nat, nat), useAt: (nat, nat), asm: bool, p: seq<nat>, m: nat)
      returns (k: nat)
    requires |g| == |blocks| && InText(blocks, defAt, useAt) && HomeHolds(blocks, g, defAt, useAt, asm)
    requires Visit(g, p, m, useAt.0)
    ensures k <= m && p[k] == defAt.0 && (k == m ==> defAt.1 < useAt.1) && InBlocks(blocks, p)
    ensures WindowClean(blocks, p, k, defAt.1, m, useAt.1, Bad(asm))
  {
    hide WindowClean, HomeRun, Count;
    PathInBlocks(blocks, g, p);
    var h := Counter(blocks, p, Some(defAt), asm);
    CounterRuns(blocks, p, Some(defAt), asm);
    assert FoundAt(p, m, defAt, useAt, h);
    k :| LastVisit(p, k, m, defAt, useAt) && h(m, useAt.1) == h(k, defAt.1 + 1);
    CountedWindow(blocks, p, k, m, defAt, useAt, asm);
  }

  /** On every run along `p`, what was in the home at the entry is there ahead of `r` of step `m`. */
  ghost predicate EntryHolds(blocks: seq<Block>, p: seq<nat>, m: nat, r: nat) {
    forall h: Home :: HomeRun(blocks, p, None, false, h) ==> h(m, r) == h(0, 0)
  }

  /** No call ahead of a point of a path exactly when every run still finds there what was in the
      home at the entry. */
  lemma EntryExact(blocks: seq<Block>, p: seq<nat>, m: nat, r: nat)
    requires InBlocks(blocks, p) && m < |p| && r <= |blocks[p[m]]|
    ensures QuietUpTo(blocks, p, m, r) <==> EntryHolds(blocks, p, m, r)
  {
    hide HomeRun;
    if QuietUpTo(blocks, p, m, r) {
      forall h: Home | HomeRun(blocks, p, None, false, h) ensures h(m, r) == h(0, 0) {
        QuietKeeps(blocks, p, m, r, h);
      }
    }
    if EntryHolds(blocks, p, m, r) {
      CounterRuns(blocks, p, None, false);
      CountedQuiet(blocks, p, m, r);
    }
  }

  lemma QuietKeeps(blocks: seq<Block>, p: seq<nat>, m: nat, r: nat, h: Home)
    requires InBlocks(blocks, p) && m < |p| && r <= |blocks[p[m]]| && QuietUpTo(blocks, p, m, r)
    requires HomeRun(blocks, p, None, false, h)
    ensures h(m, r) == h(0, 0)
  {
    hide HomeRun, Still, Clean;
    forall j | 0 <= j < m ensures Still(blocks, None, false, p[j], 0, |blocks[p[j]]|) {
      StillIsClean(blocks, None, false, p[j], 0, |blocks[p[j]]|);
    }
    StillIsClean(blocks, None, false, p[m], 0, r);
    if m == 0 {
      StillIn(blocks, p, None, false, h, 0, 0, r);
    } else {
      StillIn(blocks, p, None, false, h, 0, 0, |blocks[p[0]]|);
      StillOn(blocks, p, None, false, h, 0, m, r);
    }
  }

  lemma CountedQuiet(blocks: seq<Block>, p: seq<nat>, m: nat, r: nat)
    requires InBlocks(blocks, p) && m < |p| && r <= |blocks[p[m]]|
    requires Count(blocks, p, None, false, m, r) == Count(blocks, p, None, false, 0, 0)
    ensures QuietUpTo(blocks, p, m, r)
  {
    hide Count, Still, Clean;
    if m == 0 {
      CountIn(blocks, p, None, false, 0, 0, r);
    } else {
      CountIn(blocks, p, None, false, 0, 0, |blocks[p[0]]|);
      CountOn(blocks, p, None, false, 0, m, r);
    }
    forall j | 0 <= j < m ensures Clean(blocks[p[j]], 0, |blocks[p[j]]|, IsCall) {
      StillThenClean(blocks, None, false, p[j], 0, |blocks[p[j]]|);
    }
    StillThenClean(blocks, None, false, p[m], 0, r);
  }
}
