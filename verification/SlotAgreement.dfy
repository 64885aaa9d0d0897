/** The invariant of slot execution: a value that was set and may still be read is in its slot.
    Live points lie inside intervals, an instruction writes no slot of another live value, and
    the phi copies of an edge, all read before any is written, hand every live value on to the
    successor. */
module SlotAgreement {
  import opened Wrappers
  import opened Points
  import opened Ir
  import opened Cfg
  import opened Liveness
  import opened LiveRanges
  import opened Coloring
  import opened SlotExec

  // ---- Live points lie in the range --------------------------------------------------

  /** `v` is written by the instruction at its definition point; parameters and phis are
      written on entry and on edges instead. */
  ghost predicate WrittenInBlock(f: Func, F: Facts, v: Name)
    requires v in F.defs
  {
    DefHere(f, F.defs[v].at.block, F.defs[v].at.pos, v)
    && !f.blocks[F.defs[v].at.block][F.defs[v].at.pos].Phi?
  }

  /** `v` is overwritten by an instruction of block `b` in `[p, q)`. */
  ghost predicate Overwritten(f: Func, F: Facts, v: Name, b: nat, p: nat, q: nat)
    requires v in F.defs
  {
    WrittenInBlock(f, F, v) && F.defs[v].at.block == b && p <= F.defs[v].at.pos < q
  }

  /** The current value of `v` may still be read from `(b, p)` on. */
  ghost predicate LiveFrom(f: Func, F: Facts, v: Name, b: nat, p: nat)
    requires v in F.defs && |F.liveOut| == |f.blocks| && b < |f.blocks|
  {
    || (exists q :: p <= q && UseAt(f, v, Point(b, q)) && !Overwritten(f, F, v, b, p, q))
    || (v in F.liveOut[b] && !Overwritten(f, F, v, b, p, |f.blocks[b]|))
  }

  /** At the entry block, `v` can only have been set by the caller or earlier in the block. */
  ghost predicate SetBefore(f: Func, F: Facts, v: Name, b: nat, p: nat)
    requires v in F.defs
  {
    b == 0 ==> IsParam(f, v) || (WrittenInBlock(f, F, v) && F.defs[v].at.block == 0 && F.defs[v].at.pos < p)
  }

  /** A read before (or without) the definition in its block makes the value live-in. */
  lemma EarlyUseIsLiveIn(f: Func, F: Facts, v: Name, b: nat, q: nat)
    requires IsFacts(f, F) && v in F.defs && b < |f.blocks| && UseAt(f, v, Point(b, q))
    requires F.defs[v].at.block != b || q <= F.defs[v].at.pos
    ensures v in F.liveIn[b]
  {
    assert Has(F.uses, v, Point(b, q));
    assert ReadEarly(F.defs, F.uses, b, v, Point(b, q));
    assert EquationAt(F.g, Gens(F.defs, F.uses, |F.g|), Kills(F.defs, |F.g|), F.liveIn, F.liveOut, b);
  }

  lemma LiveOutFacts(f: Func, F: Facts, v: Name, b: nat)
    requires IsFacts(f, F) && v in F.defs && b < |f.blocks| && v in F.liveOut[b]
    ensures exists s :: 0 <= s < |f.blocks| && Edge(F.g, b, s) && v in F.liveIn[s]
    ensures F.defs[v].at.block != b ==> v in F.liveIn[b]
  {
    assert EquationAt(F.g, Gens(F.defs, F.uses, |F.g|), Kills(F.defs, |F.g|), F.liveIn, F.liveOut, b);
    var k :| 0 <= k < |F.g[b]| && v in F.liveIn[F.g[b][k]];
    assert Edge(F.g, b, F.g[b][k]);
  }

  lemma LiveOutOf(f: Func, F: Facts, v: Name, b: nat, s: nat)
    requires IsFacts(f, F) && v in F.defs && Edge(F.g, b, s) && v in F.liveIn[s]
    ensures v in F.liveOut[b]
  {
    assert EquationAt(F.g, Gens(F.defs, F.uses, |F.g|), Kills(F.defs, |F.g|), F.liveIn, F.liveOut, b);
    var k :| 0 <= k < |F.g[b]| && F.g[b][k] == s;
    assert FromSucc(F.g[b], F.liveIn, v);
  }

  /** Coverage: at a point where nothing but a write can happen next, every value that may
      still be read has the point in its range. */
  lemma Covered(f: Func, F: Facts, v: Name, r: Range, b: nat, p: nat)
    requires IsFacts(f, F) && v in F.defs && IsRange(f, F, v, r)
    requires b < |f.blocks| && p <= |f.blocks[b]| && (p < |f.blocks[b]| ==> !f.blocks[b][p].Phi?)
    requires LiveFrom(f, F, v, b, p) && SetBefore(f, F, v, b, p)
    ensures Contains(r, Point(b, p))
  {
    CoveredAbove(f, F, v, r, b, p);
    CoveredBelow(f, F, v, r, b, p);
  }

  lemma CoveredAbove(f: Func, F: Facts, v: Name, r: Range, b: nat, p: nat)
    requires IsFacts(f, F) && v in F.defs && IsRange(f, F, v, r)
    requires b < |f.blocks| && p <= |f.blocks[b]| && LiveFrom(f, F, v, b, p)
    ensures Le(Point(b, p), r.hi)
  {
    if q :| p <= q && UseAt(f, v, Point(b, q)) && !Overwritten(f, F, v, b, p, q) {
      assert Has(F.uses, v, Point(b, q));
      assert HiPoint(f, F, v, Point(b, q));
    } else {
      LiveOutFacts(f, F, v, b);
      assert HiPoint(f, F, v, Point(b, |f.blocks[b]|));
    }
  }

  lemma CoveredBelow(f: Func, F: Facts, v: Name, r: Range, b: nat, p: nat)
    requires IsFacts(f, F) && v in F.defs && IsRange(f, F, v, r)
    requires b < |f.blocks| && p <= |f.blocks[b]| && (p < |f.blocks[b]| ==> !f.blocks[b][p].Phi?)
    requires LiveFrom(f, F, v, b, p) && SetBefore(f, F, v, b, p)
    ensures Le(r.lo, Point(b, p))
  {
    var d := F.defs[v].at;
    assert LoPoint(F, v, d);
    if d.block == b && (d.pos < p || (d.pos == 0 && IsParam(f, v))) {
      assert Le(d, Point(b, p));
    } else if d.block == b && !WrittenInBlock(f, F, v) {
      assert DefHere(f, b, d.pos, v) && f.blocks[b][d.pos].Phi?;
    } else {
      assert v in F.liveIn[b] by {
        if q :| p <= q && UseAt(f, v, Point(b, q)) && !Overwritten(f, F, v, b, p, q) {
          EarlyUseIsLiveIn(f, F, v, b, q);
        } else {
          LiveOutFacts(f, F, v, b);
        }
      }
      assert b != 0;
      assert LoPoint(F, v, Point(b, 0));
    }
  }

  // ---- The invariant -----------------------------------------------------------------

  /** Every value that has been set and may still be read is in its slot. */
  ghost predicate Agree(f: Func, F: Facts, lay: Layout, env: Env, slots: Slots, b: nat, p: nat)
    requires IsPinFree(f, F, lay) && b < |f.blocks|
  {
    && env.Keys <= F.defs.Keys
    && (forall v :: v in env ==> SetBefore(f, F, v, b, p))
    && InSlots(f, F, lay.slotOf, env, slots, b, p)
  }

  ghost predicate InSlots(f: Func, F: Facts, slotOf: map<Name, nat>, env: Env, slots: Slots, b: nat, p: nat)
    requires |F.liveOut| == |f.blocks| && b < |f.blocks| && env.Keys <= F.defs.Keys
  {
    forall v :: v in env && LiveFrom(f, F, v, b, p) ==> SlotIn(slotOf, slots, v) == env[v]
  }

  lemma ReadsAgree(f: Func, F: Facts, lay: Layout, env: Env, slots: Slots, b: nat, p: nat)
    requires IsPinFree(f, F, lay) && IsInst(f, b, p) && Agree(f, F, lay, env, slots, b, p)
    requires IsFilled(FillEnv(f.blocks[b][p], env))
    ensures FillEnv(f.blocks[b][p], env) == FillSlots(lay.slotOf, slots, f.blocks[b][p])
  {
    hide WellFormed, Equations, IsDefMap, Reads, Fill;
    var i := f.blocks[b][p];
    FilledIs(i, EnvLook(env));
    forall r | r in Reads(i) ensures EnvLook(env)(r) == SlotLook(lay.slotOf, slots)(r) {
      assert EnvLook(env)(r).Some?;
      assert UseAt(f, r, Point(b, p));
      assert LiveFrom(f, F, r, b, p);
    }
    FillSame(i, EnvLook(env), SlotLook(lay.slotOf, slots));
  }

  /** A write at a point inside `w`'s range cannot touch the slot of another value whose
      range holds the same point. */
  lemma OtherSlot(f: Func, F: Facts, lay: Layout, v: Name, w: Name, at: Point)
    requires IsPinFree(f, F, lay) && v in F.defs && w in F.defs && v != w
    requires Contains(lay.info[v].range, at) && Contains(lay.info[w].range, at)
    ensures lay.slotOf[v] != lay.slotOf[w]
  {
  }

  /** The definition map names the point of an instruction's own definition. */
  lemma DefinedHere(f: Func, F: Facts, r: Range, b: nat, p: nat, w: Name)
    requires IsFacts(f, F) && DefHere(f, b, p, w) && !f.blocks[b][p].Phi?
    ensures w in F.defs && F.defs[w].at == Point(b, p) && WrittenInBlock(f, F, w)
    ensures IsRange(f, F, w, r) ==> Contains(r, Point(b, p))
  {
    assert LoPoint(F, w, Point(b, p)) && HiPoint(f, F, w, Point(b, p));
  }

  lemma StepAgrees(f: Func, F: Facts, lay: Layout, m: Machine, env: Env, slots: Slots, b: nat, p: nat, x: int,
                   noise: Slots)
    requires IsPinFree(f, F, lay) && IsInst(f, b, p) && Agree(f, F, lay, env, slots, b, p)
    requires StepEnv(m, f.blocks[b][p], env, x).Some?
    requires f.blocks[b][p].Call? ==> Harmless(lay, Point(b, p), f.blocks[b][p].result, noise)
    ensures Agree(f, F, lay, StepEnv(m, f.blocks[b][p], env, x).value,
                  StepSlots(m, lay.slotOf, f.blocks[b][p], slots, x, noise), b, p + 1)
  {
    hide IsPinFree, Agree, Harmless;
    var i := f.blocks[b][p];
    if !i.Phi? && DefOf(i).Some? {
      WriteAgrees(f, F, lay, m, env, slots, b, p, x, noise);
    } else {
      var back := if i.Call? then slots + noise else slots;
      assert StepEnv(m, i, env, x).value == env && StepSlots(m, lay.slotOf, i, slots, x, noise) == back;
      NoWriteAgrees(f, F, lay, env, slots, back, b, p);
    }
  }

  /** After the callees, every value still to be read that the instruction does not define is
      where it was. */
  ghost predicate Spared(lay: Layout, i: Inst, slots: Slots, back: Slots, at: Point) {
    if i.Call? then exists noise :: back == slots + noise && Harmless(lay, at, i.result, noise) else back == slots
  }

  lemma SparedSlot(f: Func, F: Facts, lay: Layout, slots: Slots, back: Slots, b: nat, p: nat, v: Name)
    requires IsPinFree(f, F, lay) && IsInst(f, b, p) && v in F.defs && !DefHere(f, b, p, v)
    requires Spared(lay, f.blocks[b][p], slots, back, Point(b, p)) && !f.blocks[b][p].Phi?
    requires SetBefore(f, F, v, b, p) && LiveFrom(f, F, v, b, p)
    ensures SlotIn(lay.slotOf, back, v) == SlotIn(lay.slotOf, slots, v)
  {
    hide IsFacts, IsRange, LiveFrom, SetBefore, Contains;
    InRange(f, F, lay, b, p, v);
    if f.blocks[b][p].Call? { CallResult(f, b, p, v); }
  }

  lemma InRange(f: Func, F: Facts, lay: Layout, b: nat, p: nat, v: Name)
    requires IsPinFree(f, F, lay) && IsInst(f, b, p) && v in F.defs && !f.blocks[b][p].Phi?
    requires SetBefore(f, F, v, b, p) && LiveFrom(f, F, v, b, p)
    ensures v in lay.info && v in lay.slotOf && Contains(lay.info[v].range, Point(b, p))
  {
    hide IsFacts, LiveFrom, SetBefore, IsRange;
    Covered(f, F, v, lay.info[v].range, b, p);
  }

  lemma CallResult(f: Func, b: nat, p: nat, v: Name)
    requires IsInst(f, b, p) && !DefHere(f, b, p, v) && f.blocks[b][p].Call?
    ensures f.blocks[b][p].result != Some(v)
  {
  }

  lemma NoWriteAgrees(f: Func, F: Facts, lay: Layout, env: Env, slots: Slots, back: Slots, b: nat, p: nat)
    requires IsPinFree(f, F, lay) && IsInst(f, b, p) && Agree(f, F, lay, env, slots, b, p)
    requires f.blocks[b][p].Phi? || DefOf(f.blocks[b][p]).None?
    requires Spared(lay, f.blocks[b][p], slots, back, Point(b, p))
    ensures Agree(f, F, lay, env, back, b, p + 1)
  {
    assert |F.liveOut| == |f.blocks|;
    hide WellFormed, IsFacts, IsRange, LiveFrom, Spared, IsPinFree;
    forall v | v in env && LiveFrom(f, F, v, b, p + 1)
      ensures SlotIn(lay.slotOf, back, v) == env[v]
    {
      FactsOf(f, F, lay);
      StillLive(f, F, v, b, p);
      if f.blocks[b][p].Phi? {
        SparedByPhi(lay, f.blocks[b][p], slots, back, Point(b, p));
      } else {
        SparedSlot(f, F, lay, slots, back, b, p, v);
      }
    }
  }

  lemma FactsOf(f: Func, F: Facts, lay: Layout)
    requires IsPinFree(f, F, lay)
    ensures IsFacts(f, F)
  {
  }

  lemma SparedByPhi(lay: Layout, i: Inst, slots: Slots, back: Slots, at: Point)
    requires i.Phi? && Spared(lay, i, slots, back, at)
    ensures back == slots
  {
  }

  /** A write to `w` leaves alone the slot of any other value that may still be read. */
  lemma WriteSpares(f: Func, F: Facts, lay: Layout, b: nat, p: nat, v: Name, w: Name)
    requires IsPinFree(f, F, lay) && DefHere(f, b, p, w) && !f.blocks[b][p].Phi?
    requires v in F.defs && v != w && SetBefore(f, F, v, b, p) && LiveFrom(f, F, v, b, p + 1)
    ensures LiveFrom(f, F, v, b, p)
    ensures w in F.defs && lay.slotOf[v] != lay.slotOf[w]
  {
    hide WellFormed, Equations, IsDefMap;
    StillLive(f, F, v, b, p);
    DefinedHere(f, F, lay.info[v].range, b, p, w);
    DefinedHere(f, F, lay.info[w].range, b, p, w);
    Covered(f, F, v, lay.info[v].range, b, p);
    OtherSlot(f, F, lay, v, w, Point(b, p));
  }

  lemma WriteAgrees(f: Func, F: Facts, lay: Layout, m: Machine, env: Env, slots: Slots, b: nat, p: nat, x: int,
                    noise: Slots)
    requires IsPinFree(f, F, lay) && IsInst(f, b, p) && Agree(f, F, lay, env, slots, b, p)
    requires StepEnv(m, f.blocks[b][p], env, x).Some?
    requires f.blocks[b][p].Call? ==> Harmless(lay, Point(b, p), f.blocks[b][p].result, noise)
    requires !f.blocks[b][p].Phi? && DefOf(f.blocks[b][p]).Some?
    ensures Agree(f, F, lay, StepEnv(m, f.blocks[b][p], env, x).value,
                  StepSlots(m, lay.slotOf, f.blocks[b][p], slots, x, noise), b, p + 1)
  {
    var i := f.blocks[b][p];
    var w := DefOf(i).value.0;
    assert DefHere(f, b, p, w);
    DefinedHere(f, F, Range(Point(0, 0), Point(0, 0)), b, p, w);
    ReadsAgree(f, F, lay, env, slots, b, p);
    hide Harmless, IsFacts, IsRange, Agree;
    var y := m.eval(FillSlots(lay.slotOf, slots, i), x);
    var back := if i.Call? then slots + noise else slots;
    assert StepSlots(m, lay.slotOf, i, slots, x, noise) == back[lay.slotOf[w] := y];
    assert StepEnv(m, i, env, x) == Some(env[w := y]);
    AssignAgrees(f, F, lay, env, slots, back, b, p, w, y);
  }

  lemma AssignAgrees(f: Func, F: Facts, lay: Layout, env: Env, slots: Slots, back: Slots, b: nat, p: nat, w: Name,
                     y: int)
    requires IsPinFree(f, F, lay) && IsInst(f, b, p) && Agree(f, F, lay, env, slots, b, p)
    requires DefHere(f, b, p, w) && !f.blocks[b][p].Phi?
    requires w in F.defs && F.defs[w].at == Point(b, p) && WrittenInBlock(f, F, w)
    requires Spared(lay, f.blocks[b][p], slots, back, Point(b, p))
    ensures Agree(f, F, lay, env[w := y], back[lay.slotOf[w] := y], b, p + 1)
  {
    hide WellFormed, Equations, IsDefMap;
    assert |F.liveOut| == |f.blocks| && lay.info.Keys == F.defs.Keys == lay.slotOf.Keys;
    hide IsPinFree, IsFacts, LiveFrom, WrittenInBlock, IsParam, DefHere, Spared;
    assert InSlots(f, F, lay.slotOf, env[w := y], back[lay.slotOf[w] := y], b, p + 1) by {
      forall v | v in env && v != w && LiveFrom(f, F, v, b, p + 1)
        ensures SlotIn(lay.slotOf, back[lay.slotOf[w] := y], v) == env[v]
      {
        WriteSpares(f, F, lay, b, p, v, w);
        OtherDef(f, b, p, v, w);
        SparedSlot(f, F, lay, slots, back, b, p, v);
      }
    }
  }

  lemma OtherDef(f: Func, b: nat, p: nat, v: Name, w: Name)
    requires DefHere(f, b, p, w) && v != w
    ensures !DefHere(f, b, p, v)
  {
  }

  lemma StillLive(f: Func, F: Facts, v: Name, b: nat, p: nat)
    requires IsFacts(f, F) && v in F.defs && IsInst(f, b, p) && LiveFrom(f, F, v, b, p + 1)
    requires f.blocks[b][p].Phi? || !DefHere(f, b, p, v)
    ensures LiveFrom(f, F, v, b, p)
  {
    assert !Overwritten(f, F, v, b, p, p + 1);
    if q :| p + 1 <= q && UseAt(f, v, Point(b, q)) && !Overwritten(f, F, v, b, p + 1, q) {
      assert !Overwritten(f, F, v, b, p, q);
    }
  }

  // ---- Edges -------------------------------------------------------------------------

  /** The leading phis of block `s`, from position `p` on. */
  ghost predicate LeadingPhi(f: Func, s: nat, p: nat) {
    IsInst(f, s, p) && forall q :: 0 <= q <= p ==> f.blocks[s][q].Phi?
  }

  lemma PhisLead(f: Func, s: nat, p: nat)
    requires WellFormed(f) && IsInst(f, s, p) && f.blocks[s][p].Phi?
    ensures LeadingPhi(f, s, p)
  {
    forall q | 0 <= q <= p ensures f.blocks[s][q].Phi? {
      assert IsInst(f, s, q);
    }
  }

  /** A register copied on the edge is live at the end of the predecessor. */
  lemma CopySourceLive(f: Func, F: Facts, b: nat, s: nat, p: nat, k: nat, v: Name)
    requires v in F.defs && |F.liveOut| == |f.blocks| && b < |f.blocks| && PhiTakes(f, s, p, k, v, b)
    ensures LiveFrom(f, F, v, b, |f.blocks[b]|)
  {
    assert UseAt(f, v, Point(b, |f.blocks[b]|));
  }

  /** One copy: the two executions take the same value, and its register was live. */
  lemma CopyAgrees(f: Func, F: Facts, lay: Layout, m: Machine, env: Env, slots: Slots, b: nat, s: nat, p: nat)
    requires IsPinFree(f, F, lay) && b < |f.blocks| && IsInst(f, s, p) && f.blocks[s][p].Phi?
    requires Agree(f, F, lay, env, slots, b, |f.blocks[b]|)
    requires Taken(f.blocks[s][p].incoming, b).Some?
    requires ValEnv(m, env, Taken(f.blocks[s][p].incoming, b).value).Some?
    ensures ValEnv(m, env, Taken(f.blocks[s][p].incoming, b).value).value
         == ValSlots(m, lay.slotOf, slots, Taken(f.blocks[s][p].incoming, b).value)
    ensures IsCopyOf(f, b, s, f.blocks[s][p].dst)
  {
    hide WellFormed, Equations, IsDefMap;
    assert |F.liveOut| == |f.blocks|;
    hide IsFacts, IsRange, LiveFrom, SetBefore;
    var i := f.blocks[s][p];
    var v := Taken(i.incoming, b).value;
    var k :| 0 <= k < |i.incoming| && i.incoming[k] == Incoming(v, b);
    assert PhiFrom(f, s, p, k, i.dst, b);
    if v.Reg? {
      assert PhiTakes(f, s, p, k, v.r, b);
      CopySourceLive(f, F, b, s, p, k, v.r);
    }
  }

  lemma {:induction false} CopiesAgree(f: Func, F: Facts, lay: Layout, m: Machine, env: Env, slots: Slots,
                                       b: nat, s: nat, p: nat)
    requires IsPinFree(f, F, lay) && b < |f.blocks| && s < |f.blocks| && p <= |f.blocks[s]|
    requires Agree(f, F, lay, env, slots, b, |f.blocks[b]|)
    requires CopyList(m, f.blocks[s][p..], b, env).Some?
    ensures CopyList(m, f.blocks[s][p..], b, env).value == CopySlots(m, lay.slotOf, f.blocks[s][p..], b, slots)
    ensures forall k :: 0 <= k < |CopyList(m, f.blocks[s][p..], b, env).value| ==>
      IsCopyOf(f, b, s, CopyList(m, f.blocks[s][p..], b, env).value[k].0)
    decreases |f.blocks[s]| - p
  {
    hide IsPinFree, Agree;
    var rest := f.blocks[s][p..];
    if rest != [] && rest[0].Phi? {
      var i := f.blocks[s][p];
      assert rest[0] == i && rest[1..] == f.blocks[s][p + 1..];
      CopyAgrees(f, F, lay, m, env, slots, b, s, p);
      CopiesAgree(f, F, lay, m, env, slots, b, s, p + 1);
    }
  }

  /** Every leading phi has its copy. */
  lemma {:induction false} CopiesComplete(f: Func, m: Machine, env: Env, b: nat, s: nat, p: nat, q: nat)
    requires s < |f.blocks| && p <= q && LeadingPhi(f, s, q)
    requires CopyList(m, f.blocks[s][p..], b, env).Some?
    ensures Written(CopyList(m, f.blocks[s][p..], b, env).value, f.blocks[s][q].dst)
    decreases q - p
  {
    var rest := f.blocks[s][p..];
    assert rest[0] == f.blocks[s][p] && rest[1..] == f.blocks[s][p + 1..];
    assert f.blocks[s][p].Phi?;
    var cs := CopyList(m, rest, b, env).value;
    if p == q {
      assert cs[0].0 == f.blocks[s][q].dst;
    } else {
      CopiesComplete(f, m, env, b, s, p + 1, q);
      var k :| 0 <= k < |cs[1..]| && cs[1..][k].0 == f.blocks[s][q].dst;
      assert cs[k + 1].0 == f.blocks[s][q].dst;
    }
  }

  ghost predicate Written(cs: seq<(Name, int)>, v: Name) {
    exists k :: 0 <= k < |cs| && cs[k].0 == v
  }

  /** `d` is a phi of `s` with a copy on the edge from `b`. */
  ghost predicate IsCopyOf(f: Func, b: nat, s: nat, d: Name) {
    exists p, k :: PhiFrom(f, s, p, k, d, b)
  }

  lemma CopyInRange(f: Func, F: Facts, b: nat, s: nat, d: Name, r: Range)
    requires IsFacts(f, F) && b < |f.blocks| && IsCopyOf(f, b, s, d)
    ensures d in F.defs && F.defs[d].at.block == s && !WrittenInBlock(f, F, d)
    ensures IsRange(f, F, d, r) ==> Contains(r, Point(b, |f.blocks[b]|))
  {
    var p, k :| PhiFrom(f, s, p, k, d, b);
    assert DefHere(f, s, p, d);
    assert CopiedAt(f, d, Point(b, |f.blocks[b]|));
    assert Has(F.copies, d, Point(b, |f.blocks[b]|));
    assert LoPoint(F, d, Point(b, |f.blocks[b]|)) && HiPoint(f, F, d, Point(b, |f.blocks[b]|));
  }

  /** After the copies, a written value is in its slot and any other slot is untouched. */
  lemma {:induction false} WritesAgree(f: Func, F: Facts, lay: Layout, env: Env, slots: Slots,
                                       b: nat, s: nat, cs: seq<(Name, int)>, v: Name)
    requires IsPinFree(f, F, lay) && b < |f.blocks| && v in F.defs
    requires forall k :: 0 <= k < |cs| ==> IsCopyOf(f, b, s, cs[k].0)
    requires Contains(lay.info[v].range, Point(b, |f.blocks[b]|))
    requires Written(cs, v) || (v in env && SlotIn(lay.slotOf, slots, v) == env[v])
    ensures v in WriteEnv(env, cs)
    ensures SlotIn(lay.slotOf, WriteSlots(lay.slotOf, slots, cs), v) == WriteEnv(env, cs)[v]
    decreases |cs|
  {
    hide WellFormed, Equations, IsDefMap;
    if cs != [] {
      var d := cs[0].0;
      CopyApart(f, F, lay, b, s, d, v);
      var env1, slots1 := env[d := cs[0].1], slots[lay.slotOf[d] := cs[0].1];
      hide IsPinFree, Contains, IsCopyOf;
      assert Written(cs[1..], v) || (v in env1 && SlotIn(lay.slotOf, slots1, v) == env1[v]) by {
        if Written(cs, v) && d != v {
          var k :| 0 <= k < |cs| && cs[k].0 == v;
          assert cs[1..][k - 1].0 == v;
        }
      }
      WritesAgree(f, F, lay, env1, slots1, b, s, cs[1..], v);
    }
  }

  lemma CopyApart(f: Func, F: Facts, lay: Layout, b: nat, s: nat, d: Name, v: Name)
    requires IsPinFree(f, F, lay) && b < |f.blocks| && v in F.defs && IsCopyOf(f, b, s, d)
    requires Contains(lay.info[v].range, Point(b, |f.blocks[b]|))
    ensures d in lay.slotOf && v in lay.slotOf && (d != v ==> lay.slotOf[d] != lay.slotOf[v])
  {
    hide WellFormed, Equations, IsDefMap;
    CopyInRange(f, F, b, s, d, lay.info[v].range);
    CopyInRange(f, F, b, s, d, lay.info[d].range);
    if d != v { OtherSlot(f, F, lay, v, d, Point(b, |f.blocks[b]|)); }
  }

  lemma {:induction false} WriteEnvKeys(env: Env, cs: seq<(Name, int)>, v: Name)
    requires v in WriteEnv(env, cs)
    ensures v in env || Written(cs, v)
    ensures !Written(cs, v) ==> v in env && WriteEnv(env, cs)[v] == env[v]
    decreases |cs|
  {
    if cs != [] {
      WriteEnvKeys(env[cs[0].0 := cs[0].1], cs[1..], v);
      if Written(cs[1..], v) {
        var k :| 0 <= k < |cs[1..]| && cs[1..][k].0 == v;
        assert cs[k + 1].0 == v;
      }
    }
  }

  /** A value live into `s` that is no phi of `s` is live at the end of the predecessor. */
  lemma LiveAcrossEdge(f: Func, F: Facts, v: Name, b: nat, s: nat)
    requires IsFacts(f, F) && v in F.defs && Edge(F.g, b, s) && LiveFrom(f, F, v, s, 0)
    requires !(F.defs[v].at.block == s && !WrittenInBlock(f, F, v))
    ensures LiveFrom(f, F, v, b, |f.blocks[b]|)
  {
    assert v in F.liveIn[s] by {
      if q :| 0 <= q && UseAt(f, v, Point(s, q)) && !Overwritten(f, F, v, s, 0, q) {
        EarlyUseIsLiveIn(f, F, v, s, q);
      } else {
        LiveOutFacts(f, F, v, s);
      }
    }
    LiveOutOf(f, F, v, b, s);
  }

  lemma NotTheEntry(f: Func, F: Facts, b: nat, s: nat)
    requires IsFacts(f, F) && Edge(F.g, b, s)
    ensures s != 0
  {
  }

  lemma EdgeAgrees(f: Func, F: Facts, lay: Layout, m: Machine, env: Env, slots: Slots, b: nat, s: nat)
    requires IsPinFree(f, F, lay) && Edge(F.g, b, s)
    requires Agree(f, F, lay, env, slots, b, |f.blocks[b]|)
    requires CopyList(m, f.blocks[s], b, env).Some?
    ensures Agree(f, F, lay, WriteEnv(env, CopyList(m, f.blocks[s], b, env).value),
                  WriteSlots(lay.slotOf, slots, CopySlots(m, lay.slotOf, f.blocks[s], b, slots)), s, 0)
  {
    hide WellFormed, Equations, IsDefMap;
    assert f.blocks[s][0..] == f.blocks[s];
    CopiesAgree(f, F, lay, m, env, slots, b, s, 0);
    var cs := CopyList(m, f.blocks[s], b, env).value;
    NotTheEntry(f, F, b, s);
    assert |F.liveOut| == |f.blocks|;
    hide IsFacts, IsRange, LiveFrom;
    forall q: nat | LeadingPhi(f, s, q) ensures Written(cs, f.blocks[s][q].dst) {
      CopiesComplete(f, m, env, b, s, 0, q);
    }
    forall v | v in WriteEnv(env, cs)
      ensures v in F.defs
      ensures LiveFrom(f, F, v, s, 0) ==>
        SlotIn(lay.slotOf, WriteSlots(lay.slotOf, slots, cs), v) == WriteEnv(env, cs)[v]
    {
      WriteEnvKeys(env, cs, v);
      EdgeKeeps(f, F, lay, env, slots, b, s, cs, v);
    }
  }

  lemma EdgeKeeps(f: Func, F: Facts, lay: Layout, env: Env, slots: Slots, b: nat, s: nat,
                  cs: seq<(Name, int)>, v: Name)
    requires IsPinFree(f, F, lay) && Edge(F.g, b, s) && s != 0
    requires Agree(f, F, lay, env, slots, b, |f.blocks[b]|)
    requires forall k :: 0 <= k < |cs| ==> IsCopyOf(f, b, s, cs[k].0)
    requires forall q: nat :: LeadingPhi(f, s, q) ==> Written(cs, f.blocks[s][q].dst)
    requires v in env || Written(cs, v)
    ensures v in F.defs
    ensures LiveFrom(f, F, v, s, 0) ==>
      v in WriteEnv(env, cs) && SlotIn(lay.slotOf, WriteSlots(lay.slotOf, slots, cs), v) == WriteEnv(env, cs)[v]
  {
    hide WellFormed, Equations, IsDefMap;
    if Written(cs, v) {
      WrittenInRange(f, F, lay, b, s, cs, v);
      WritesAgree(f, F, lay, env, slots, b, s, cs, v);
    } else if LiveFrom(f, F, v, s, 0) {
      UnwrittenIsLive(f, F, b, s, cs, v);
      Covered(f, F, v, lay.info[v].range, b, |f.blocks[b]|);
      WritesAgree(f, F, lay, env, slots, b, s, cs, v);
    }
  }

  lemma WrittenInRange(f: Func, F: Facts, lay: Layout, b: nat, s: nat, cs: seq<(Name, int)>, v: Name)
    requires IsPinFree(f, F, lay) && b < |f.blocks| && Written(cs, v)
    requires forall k :: 0 <= k < |cs| ==> IsCopyOf(f, b, s, cs[k].0)
    ensures v in F.defs && Contains(lay.info[v].range, Point(b, |f.blocks[b]|))
  {
    hide WellFormed, Equations, IsDefMap;
    var k :| 0 <= k < |cs| && cs[k].0 == v;
    CopyInRange(f, F, b, s, v, Range(Point(0, 0), Point(0, 0)));
    CopyInRange(f, F, b, s, v, lay.info[v].range);
  }

  lemma UnwrittenIsLive(f: Func, F: Facts, b: nat, s: nat, cs: seq<(Name, int)>, v: Name)
    requires IsFacts(f, F) && Edge(F.g, b, s) && s != 0 && v in F.defs && LiveFrom(f, F, v, s, 0)
    requires forall q: nat :: LeadingPhi(f, s, q) ==> Written(cs, f.blocks[s][q].dst)
    requires !Written(cs, v)
    ensures LiveFrom(f, F, v, b, |f.blocks[b]|)
  {
    var d := F.defs[v].at;
    if d.block == s && !WrittenInBlock(f, F, v) {
      assert DefHere(f, s, d.pos, v);
      PhisLead(f, s, d.pos);
      assert false;
    }
    LiveAcrossEdge(f, F, v, b, s);
  }
}
