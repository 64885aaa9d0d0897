/** A function running on its slots while the functions it calls run on theirs: on every chain of
    calls, whatever the later frames overwrite, a suspended function finds its values in place. */
module ChainExec {
  import opened Wrappers
  import opened Points
  import opened Ir
  import opened Cfg
  import opened LiveRanges
  import opened Coloring
  import opened SlotExec
  import opened SlotRefinement
  import opened Overlay
  import opened Frames

  /** The frame the overlay places is the one the colouring laid out. */
  ghost predicate FrameIs(fr: FuncFrame, lay: Layout) {
    && |fr.widths| == |lay.slots| && (forall s :: 0 <= s < |lay.slots| ==> fr.widths[s] == lay.slots[s].width)
    && fr.live.Keys == lay.slotOf.Keys == lay.info.Keys
    && forall v :: v in lay.slotOf ==> fr.live[v] == LiveSlot(lay.slotOf[v], lay.info[v].range)
  }

  /** `g` can be running below the call that `c` makes at `at`, at any depth. */
  ghost predicate Deeper(p: Program, c: nat, at: Point, result: Option<Name>, g: nat)
    requires Valid(p)
  {
    exists chain: seq<nat>, calls: seq<Site> ::
      IsChain(p, chain, calls) && |chain| > 1 && chain[0] == c && chain[|chain| - 1] == g
      && calls[0].at == at && calls[0].result == result
  }

  predicate ShareByte(a: nat, wa: nat, b: nat, wb: nat) {
    a < b + wb && b < a + wa
  }

  /** Slot `s` of `c` shares a byte of RAM with a slot of a function below the call. */
  ghost predicate Reused(p: Program, addrs: seq<seq<nat>>, c: nat, at: Point, result: Option<Name>, s: nat)
    requires Valid(p)
  {
    HasSlot(p, addrs, c, s) && exists g: nat, t: nat ::
      Deeper(p, c, at, result, g) && HasSlot(p, addrs, g, t)
      && ShareByte(addrs[c][s], p.funcs[c].widths[s], addrs[g][t], p.funcs[g].widths[t])
  }

  predicate HasSlot(p: Program, addrs: seq<seq<nat>>, f: nat, s: nat) {
    f < |p.funcs| && f < |addrs| && s < |p.funcs[f].widths| && s < |addrs[f]|
  }

  /** The functions below each call touch this frame only where it shares bytes with theirs. */
  ghost predicate OwnFramesOnly(p: Program, addrs: seq<seq<nat>>, c: nat, f: Func, path: seq<nat>, noise: Noise)
    requires Valid(p) && c < |p.funcs|
    requires forall k :: 0 <= k < |path| ==> path[k] < |f.blocks|
  {
    forall j: nat, q: nat, s: nat ::
      && j < |path| && q < |f.blocks[path[j]]| && f.blocks[path[j]][q].Call?
      && s in noise(j, q) && s < |p.funcs[c].widths| ==>
        Reused(p, addrs, c, Point(path[j], q), f.blocks[path[j]][q].result, s)
  }

  /** A reused slot holds nothing that is live across the call. */
  lemma ReusedIsDead(p: Program, base: map<nat, nat>, orders: seq<seq<nat>>, addrs: seq<seq<nat>>,
                     c: nat, lay: Layout, at: Point, result: Option<Name>, v: Name)
    requires Valid(p) && Settled(p, base) && SlotsPlaced(p, base, orders, addrs)
    requires c < |p.funcs| && FrameIs(p.funcs[c], lay) && v in lay.slotOf
    requires Reused(p, addrs, c, at, result, lay.slotOf[v])
    ensures !Contains(lay.info[v].range, at) || result == Some(v)
  {
    hide Valid, Settled, SlotsPlaced;
    if Contains(lay.info[v].range, at) && result != Some(v) {
      var s := lay.slotOf[v];
      var g: nat, t: nat :| Deeper(p, c, at, result, g) && HasSlot(p, addrs, g, t)
        && ShareByte(addrs[c][s], p.funcs[c].widths[s], addrs[g][t], p.funcs[g].widths[t]);
      var chain: seq<nat>, calls: seq<Site> :|
        IsChain(p, chain, calls) && |chain| > 1 && chain[0] == c && chain[|chain| - 1] == g
        && calls[0].at == at && calls[0].result == result;
      assert LiveAcross(p.funcs[c], calls[0], v);
      OverlaySafe(p, base, orders, addrs, chain, calls, 0, |chain| - 1, v, t);
      assert false;
    }
  }

  lemma OthersHarmless(p: Program, base: map<nat, nat>, orders: seq<seq<nat>>, addrs: seq<seq<nat>>,
                       c: nat, f: Func, lay: Layout, path: seq<nat>, noise: Noise)
    requires Valid(p) && Settled(p, base) && SlotsPlaced(p, base, orders, addrs)
    requires c < |p.funcs| && FrameIs(p.funcs[c], lay)
    requires forall k :: 0 <= k < |path| ==> path[k] < |f.blocks|
    requires OwnFramesOnly(p, addrs, c, f, path, noise)
    ensures HarmlessRun(f, lay, path, noise)
  {
    FrameSlots(p, c);
    hide Valid, Settled, SlotsPlaced, Reused;
    forall j: nat, q: nat | j < |path| && q < |f.blocks[path[j]]| && f.blocks[path[j]][q].Call?
      ensures Harmless(lay, Point(path[j], q), f.blocks[path[j]][q].result, noise(j, q))
    {
      var result := f.blocks[path[j]][q].result;
      forall v | v in lay.slotOf && v in lay.info && lay.slotOf[v] in noise(j, q)
        ensures !Contains(lay.info[v].range, Point(path[j], q)) || result == Some(v)
      {
        assert p.funcs[c].live[v].slot == lay.slotOf[v];
        assert Reused(p, addrs, c, Point(path[j], q), result, lay.slotOf[v]);
        ReusedIsDead(p, base, orders, addrs, c, lay, Point(path[j], q), result, v);
      }
    }
  }

  lemma FrameSlots(p: Program, c: nat)
    requires Valid(p) && c < |p.funcs|
    ensures forall v :: v in p.funcs[c].live ==> p.funcs[c].live[v].slot < |p.funcs[c].widths|
  {
    assert ValidFrame(p.funcs[c]);
  }

  /** On every path, with every callee at every depth free to overwrite its own frame, each
      instruction reads from its operands' slots exactly the SSA values. */
  lemma ChainReads(p: Program, base: map<nat, nat>, orders: seq<seq<nat>>, addrs: seq<seq<nat>>,
                   c: nat, f: Func, F: Facts, lay: Layout, m: Machine, path: seq<nat>, j: nat, q: nat, noise: Noise)
    requires Valid(p) && Settled(p, base) && SlotsPlaced(p, base, orders, addrs)
    requires c < |p.funcs| && FrameIs(p.funcs[c], lay) && IsPinFree(f, F, lay)
    requires IsPath(F.g, path) && path[0] == 0 && forall k :: 0 <= k < |path| ==> path[k] < |f.blocks|
    requires j < |path| && q < |f.blocks[path[j]]|
    requires EnvAt(f, m, path, j, q).Some? && IsFilled(FillEnv(f.blocks[path[j]][q], EnvAt(f, m, path, j, q).value))
    requires OwnFramesOnly(p, addrs, c, f, path, noise)
    ensures FillEnv(f.blocks[path[j]][q], EnvAt(f, m, path, j, q).value)
         == FillSlots(lay.slotOf, SlotsAt(f, m, lay.slotOf, path, j, q, noise), f.blocks[path[j]][q])
  {
    hide Valid, Settled, SlotsPlaced, IsPinFree, OwnFramesOnly, HarmlessRun, FrameIs;
    OthersHarmless(p, base, orders, addrs, c, f, lay, path, noise);
    NoisyRefines(f, F, lay, m, path, j, q, noise);
  }
}
