/** Running a function on its coloured slots gives every read the value SSA execution gives
    it, along every path; and strict SSA reads no undefined value. */
module SlotRefinement {
  import opened Points
  import opened Ir
  import opened Cfg
  import opened Liveness
  import opened LiveRanges
  import opened Coloring
  import opened SlotExec
  import opened SlotAgreement

  // ---- Entry and the theorem ---------------------------------------------------------

  lemma {:induction false} ArgsAgree(f: Func, F: Facts, lay: Layout, m: Machine, n: nat, v: Name)
    requires IsPinFree(f, F, lay) && n <= |f.params|
    requires v in Args(m, f.params[n..])
    ensures IsParam(f, v) && v in F.defs
    ensures SlotIn(lay.slotOf, ArgSlots(m, lay.slotOf, f.params[n..]), v) == Args(m, f.params[n..])[v]
    decreases |f.params| - n
  {
    var d := f.params[n].name;
    assert f.params[n..][1..] == f.params[n + 1..];
    assert IsParam(f, d);
    ParamInRange(f, F, lay, d);
    if v != d {
      ArgsAgree(f, F, lay, m, n + 1, v);
      ParamInRange(f, F, lay, v);
      OtherSlot(f, F, lay, v, d, Point(0, 0));
    }
  }

  lemma ParamInRange(f: Func, F: Facts, lay: Layout, v: Name)
    requires IsPinFree(f, F, lay) && IsParam(f, v)
    ensures v in F.defs && F.defs[v].at == Point(0, 0) && Contains(lay.info[v].range, Point(0, 0))
  {
    assert LoPoint(F, v, Point(0, 0)) && HiPoint(f, F, v, Point(0, 0));
  }

  lemma EntryAgrees(f: Func, F: Facts, lay: Layout, m: Machine)
    requires IsPinFree(f, F, lay)
    ensures Agree(f, F, lay, Args(m, f.params), ArgSlots(m, lay.slotOf, f.params), 0, 0)
  {
    hide WellFormed, Equations, IsDefMap;
    assert f.params[0..] == f.params;
    forall v | v in Args(m, f.params)
      ensures v in F.defs && IsParam(f, v)
      ensures SlotIn(lay.slotOf, ArgSlots(m, lay.slotOf, f.params), v) == Args(m, f.params)[v]
    {
      ArgsAgree(f, F, lay, m, 0, v);
    }
  }

  lemma {:induction false} RunAgrees(f: Func, F: Facts, lay: Layout, m: Machine, p: seq<nat>, j: nat, q: nat,
                                      noise: Noise)
    requires IsPinFree(f, F, lay) && IsPath(F.g, p) && p[0] == 0
    requires j < |p| && (forall k :: 0 <= k < |p| ==> p[k] < |f.blocks|) && q <= |f.blocks[p[j]]|
    requires EnvAt(f, m, p, j, q).Some? && HarmlessRun(f, lay, p, noise)
    ensures Agree(f, F, lay, EnvAt(f, m, p, j, q).value, SlotsAt(f, m, lay.slotOf, p, j, q, noise), p[j], q)
    decreases j, q
  {
    hide IsPinFree, Agree, Harmless;
    if q > 0 {
      RunAgrees(f, F, lay, m, p, j, q - 1, noise);
      StepAgrees(f, F, lay, m, EnvAt(f, m, p, j, q - 1).value, SlotsAt(f, m, lay.slotOf, p, j, q - 1, noise),
                 p[j], q - 1, m.outside(j, q - 1), noise(j, q - 1));
    } else if j > 0 {
      var n := |f.blocks[p[j - 1]]|;
      RunAgrees(f, F, lay, m, p, j - 1, n, noise);
      assert Edge(F.g, p[j - 1], p[j]);
      EdgeAgrees(f, F, lay, m, EnvAt(f, m, p, j - 1, n).value, SlotsAt(f, m, lay.slotOf, p, j - 1, n, noise),
                 p[j - 1], p[j]);
    } else {
      EntryAgrees(f, F, lay, m);
    }
  }

  /** Refinement: on every path from the entry, as long as SSA execution reads only defined
      values, each instruction reads from its operands' slots exactly the SSA values. */
  lemma SlotsRefineSsa(f: Func, F: Facts, lay: Layout, m: Machine, p: seq<nat>, j: nat, q: nat)
    requires IsPinFree(f, F, lay) && IsPath(F.g, p) && p[0] == 0
    requires j < |p| && (forall k :: 0 <= k < |p| ==> p[k] < |f.blocks|) && q < |f.blocks[p[j]]|
    requires EnvAt(f, m, p, j, q).Some? && IsFilled(FillEnv(f.blocks[p[j]][q], EnvAt(f, m, p, j, q).value))
    ensures FillEnv(f.blocks[p[j]][q], EnvAt(f, m, p, j, q).value)
         == FillSlots(lay.slotOf, SlotsAt(f, m, lay.slotOf, p, j, q, QUIET), f.blocks[p[j]][q])
  {
    NoisyRefines(f, F, lay, m, p, j, q, QUIET);
  }

  /** The same while the callees overwrite slots that hold nothing live at their call. */
  lemma NoisyRefines(f: Func, F: Facts, lay: Layout, m: Machine, p: seq<nat>, j: nat, q: nat, noise: Noise)
    requires IsPinFree(f, F, lay) && IsPath(F.g, p) && p[0] == 0
    requires j < |p| && (forall k :: 0 <= k < |p| ==> p[k] < |f.blocks|) && q < |f.blocks[p[j]]|
    requires EnvAt(f, m, p, j, q).Some? && IsFilled(FillEnv(f.blocks[p[j]][q], EnvAt(f, m, p, j, q).value))
    requires HarmlessRun(f, lay, p, noise)
    ensures FillEnv(f.blocks[p[j]][q], EnvAt(f, m, p, j, q).value)
         == FillSlots(lay.slotOf, SlotsAt(f, m, lay.slotOf, p, j, q, noise), f.blocks[p[j]][q])
  {
    hide IsPinFree, Agree, HarmlessRun;
    RunAgrees(f, F, lay, m, p, j, q, noise);
    ReadsAgree(f, F, lay, EnvAt(f, m, p, j, q).value, SlotsAt(f, m, lay.slotOf, p, j, q, noise), p[j], q);
  }

  // ---- Strict SSA never reads an undefined value ---------------------------------------

  /** Every read is of a defined value whose definition dominates it; no phi in the entry. */
  ghost predicate StrictSsa(f: Func, F: Facts) {
    && (forall v, at :: UseAt(f, v, at) ==> v in F.defs && DefReaches(f, F, v, at))
    && (forall p: nat :: IsInst(f, 0, p) ==> !f.blocks[0][p].Phi?)
  }

  ghost predicate DefReaches(f: Func, F: Facts, v: Name, at: Point)
    requires v in F.defs
  {
    || IsParam(f, v)
    || (F.defs[v].at.block == at.block && (WrittenInBlock(f, F, v) ==> F.defs[v].at.pos < at.pos))
    || (F.defs[v].at.block != at.block && Dominates(F.g, F.defs[v].at.block, at.block))
  }

  /** The path has run `v`'s definition by instruction `q` of step `j`. */
  ghost predicate Passed(f: Func, F: Facts, p: seq<nat>, j: nat, q: nat, v: Name)
    requires v in F.defs && j < |p|
  {
    || IsParam(f, v)
    || exists i :: 0 <= i <= j && p[i] == F.defs[v].at.block
          && (i < j || (WrittenInBlock(f, F, v) ==> F.defs[v].at.pos < q))
  }

  lemma {:induction false} PassedIsKnown(f: Func, F: Facts, m: Machine, p: seq<nat>, j: nat, q: nat, v: Name)
    requires IsFacts(f, F) && StrictSsa(f, F) && IsPath(F.g, p) && p[0] == 0
    requires j < |p| && (forall k :: 0 <= k < |p| ==> p[k] < |f.blocks|) && q <= |f.blocks[p[j]]|
    requires EnvAt(f, m, p, j, q).Some? && v in F.defs && Passed(f, F, p, j, q, v)
    ensures v in EnvAt(f, m, p, j, q).value
    decreases j, q
  {
    hide IsFacts, StrictSsa;
    if q > 0 {
      if Passed(f, F, p, j, q - 1, v) {
        PassedIsKnown(f, F, m, p, j, q - 1, v);
      } else {
        DefinesAt(f, F, v, p[j], q - 1);
      }
    } else if j > 0 {
      var n := |f.blocks[p[j - 1]]|;
      var env := EnvAt(f, m, p, j - 1, n).value;
      var cs := CopyList(m, f.blocks[p[j]], p[j - 1], env).value;
      if Passed(f, F, p, j - 1, n, v) {
        PassedIsKnown(f, F, m, p, j - 1, n, v);
        WriteEnvGrows(env, cs, v);
      } else {
        PhiCopied(f, F, m, p, j, env, v);
      }
    } else {
      EntryKnown(f, F, m, p, v);
    }
  }

  lemma DefinesAt(f: Func, F: Facts, v: Name, b: nat, q: nat)
    requires IsFacts(f, F) && v in F.defs && IsInst(f, b, q) && WrittenInBlock(f, F, v)
    requires F.defs[v].at == Point(b, q)
    ensures !f.blocks[b][q].Phi? && DefOf(f.blocks[b][q]).Some? && DefOf(f.blocks[b][q]).value.0 == v
  {
  }

  lemma {:induction false} WriteEnvGrows(env: Env, cs: seq<(Name, int)>, v: Name)
    requires v in env || Written(cs, v)
    ensures v in WriteEnv(env, cs)
    decreases |cs|
  {
    if cs != [] {
      if Written(cs, v) && cs[0].0 != v {
        var k :| 0 <= k < |cs| && cs[k].0 == v;
        assert cs[1..][k - 1].0 == v;
      }
      WriteEnvGrows(env[cs[0].0 := cs[0].1], cs[1..], v);
    }
  }

  lemma PhiDefLeads(f: Func, F: Facts, v: Name)
    requires IsFacts(f, F) && v in F.defs && !IsParam(f, v) && !WrittenInBlock(f, F, v)
    ensures LeadingPhi(f, F.defs[v].at.block, F.defs[v].at.pos)
    ensures f.blocks[F.defs[v].at.block][F.defs[v].at.pos].dst == v
  {
    PhisLead(f, F.defs[v].at.block, F.defs[v].at.pos);
  }

  lemma PhiCopied(f: Func, F: Facts, m: Machine, p: seq<nat>, j: nat, env: Env, v: Name)
    requires IsFacts(f, F) && 0 < j < |p| && (forall k :: 0 <= k < |p| ==> p[k] < |f.blocks|)
    requires v in F.defs && Passed(f, F, p, j, 0, v)
    requires !Passed(f, F, p, j - 1, |f.blocks[p[j - 1]]|, v)
    requires CopyList(m, f.blocks[p[j]], p[j - 1], env).Some?
    ensures v in WriteEnv(env, CopyList(m, f.blocks[p[j]], p[j - 1], env).value)
  {
    hide IsFacts;
    var s := p[j];
    var i :| 0 <= i <= j && p[i] == F.defs[v].at.block && (i < j || !WrittenInBlock(f, F, v));
    assert i == j;
    var d := F.defs[v].at;
    PhiDefLeads(f, F, v);
    assert f.blocks[s][0..] == f.blocks[s];
    CopiesComplete(f, m, env, p[j - 1], s, 0, d.pos);
    WriteEnvGrows(env, CopyList(m, f.blocks[s], p[j - 1], env).value, v);
  }

  lemma EntryDefWritten(f: Func, F: Facts, v: Name)
    requires IsFacts(f, F) && StrictSsa(f, F) && v in F.defs && !IsParam(f, v) && F.defs[v].at.block == 0
    ensures WrittenInBlock(f, F, v)
  {
    assert DefHere(f, 0, F.defs[v].at.pos, v);
  }

  lemma EntryKnown(f: Func, F: Facts, m: Machine, p: seq<nat>, v: Name)
    requires IsFacts(f, F) && StrictSsa(f, F) && v in F.defs && |p| > 0 && p[0] == 0 && Passed(f, F, p, 0, 0, v)
    ensures v in Args(m, f.params)
  {
    if !IsParam(f, v) {
      EntryDefWritten(f, F, v);
      assert false;
    }
    var k :| 0 <= k < |f.params| && f.params[k].name == v;
    ArgsHold(m, f.params, k);
  }

  lemma {:induction false} ArgsHold(m: Machine, ps: seq<Param>, k: nat)
    requires k < |ps|
    ensures ps[k].name in Args(m, ps)
    decreases |ps|
  {
    if k > 0 { ArgsHold(m, ps[1..], k - 1); }
  }

  /** A strict use has its definition behind it on every path. */
  lemma UseIsPassed(f: Func, F: Facts, p: seq<nat>, j: nat, q: nat, v: Name)
    requires IsFacts(f, F) && StrictSsa(f, F) && IsPath(F.g, p) && p[0] == 0
    requires j < |p| && UseAt(f, v, Point(p[j], q))
    ensures v in F.defs && Passed(f, F, p, j, q, v)
  {
    var d := F.defs[v].at;
    if !IsParam(f, v) {
      if d.block == p[j] {
        assert p[j] == d.block && (j < j || (WrittenInBlock(f, F, v) ==> d.pos < q));
      } else {
        Slice(F.g, p, 0, j);
        var i :| 0 <= i < |p[0..j + 1]| && p[0..j + 1][i] == d.block;
        assert p[i] == d.block && i < j;
      }
    }
  }

  /** In strict SSA the SSA execution is defined along every path, so `SlotsRefineSsa`
      applies to every read the function can make. */
  lemma {:induction false} StrictNeverStuck(f: Func, F: Facts, m: Machine, p: seq<nat>, j: nat, q: nat)
    requires IsFacts(f, F) && StrictSsa(f, F) && IsPath(F.g, p) && p[0] == 0
    requires j < |p| && (forall k :: 0 <= k < |p| ==> p[k] < |f.blocks|) && q <= |f.blocks[p[j]]|
    ensures EnvAt(f, m, p, j, q).Some?
    ensures q < |f.blocks[p[j]]| ==> IsFilled(FillEnv(f.blocks[p[j]][q], EnvAt(f, m, p, j, q).value))
    decreases j, q
  {
    hide IsFacts, StrictSsa;
    if q > 0 {
      StrictNeverStuck(f, F, m, p, j, q - 1);
    } else if j > 0 {
      var n := |f.blocks[p[j - 1]]|;
      StrictNeverStuck(f, F, m, p, j - 1, n);
      assert Edge(F.g, p[j - 1], p[j]);
      assert f.blocks[p[j]][0..] == f.blocks[p[j]];
      CopiesDefined(f, F, m, p, j, 0);
    }
    if q < |f.blocks[p[j]]| {
      var i := f.blocks[p[j]][q];
      hide Fill, IsFilled;
      forall r | r in Reads(i) ensures EnvLook(EnvAt(f, m, p, j, q).value)(r).Some? {
        assert UseAt(f, r, Point(p[j], q));
        UseIsPassed(f, F, p, j, q, r);
        PassedIsKnown(f, F, m, p, j, q, r);
      }
      FilledIs(i, EnvLook(EnvAt(f, m, p, j, q).value));
    }
  }

  lemma {:induction false} CopiesDefined(f: Func, F: Facts, m: Machine, p: seq<nat>, j: nat, i: nat)
    requires IsFacts(f, F) && StrictSsa(f, F) && IsPath(F.g, p) && p[0] == 0
    requires 0 < j < |p| && (forall k :: 0 <= k < |p| ==> p[k] < |f.blocks|) && i <= |f.blocks[p[j]]|
    requires EnvAt(f, m, p, j - 1, |f.blocks[p[j - 1]]|).Some?
    ensures CopyList(m, f.blocks[p[j]][i..], p[j - 1], EnvAt(f, m, p, j - 1, |f.blocks[p[j - 1]]|).value).Some?
    decreases |f.blocks[p[j]]| - i
  {
    var s, b := p[j], p[j - 1];
    var rest := f.blocks[s][i..];
    if rest != [] && rest[0].Phi? {
      assert rest[0] == f.blocks[s][i] && rest[1..] == f.blocks[s][i + 1..];
      CopyDefined(f, F, m, p, j, i);
      CopiesDefined(f, F, m, p, j, i + 1);
    }
  }

  lemma TakenOnEdge(f: Func, F: Facts, b: nat, s: nat, i: nat)
    requires IsFacts(f, F) && Edge(F.g, b, s) && IsInst(f, s, i) && f.blocks[s][i].Phi?
    ensures Taken(f.blocks[s][i].incoming, b).Some?
  {
  }

  lemma CopyDefined(f: Func, F: Facts, m: Machine, p: seq<nat>, j: nat, i: nat)
    requires IsFacts(f, F) && StrictSsa(f, F) && IsPath(F.g, p) && p[0] == 0
    requires 0 < j < |p| && (forall k :: 0 <= k < |p| ==> p[k] < |f.blocks|) && i < |f.blocks[p[j]]|
    requires f.blocks[p[j]][i].Phi? && EnvAt(f, m, p, j - 1, |f.blocks[p[j - 1]]|).Some?
    ensures Taken(f.blocks[p[j]][i].incoming, p[j - 1]).Some?
    ensures ValEnv(m, EnvAt(f, m, p, j - 1, |f.blocks[p[j - 1]]|).value,
                   Taken(f.blocks[p[j]][i].incoming, p[j - 1]).value).Some?
  {
    hide IsFacts, StrictSsa;
    var s, b := p[j], p[j - 1];
    assert Edge(F.g, p[j - 1], p[j]);
    TakenOnEdge(f, F, b, s, i);
    var inc := f.blocks[s][i].incoming;
    var v := Taken(inc, b).value;
    if v.Reg? {
      var k :| 0 <= k < |inc| && inc[k] == Incoming(v, b);
      assert PhiTakes(f, s, i, k, v.r, b);
      assert UseAt(f, v.r, Point(b, |f.blocks[b]|));
      UseIsPassed(f, F, p, j - 1, |f.blocks[b]|, v.r);
      PassedIsKnown(f, F, m, p, j - 1, |f.blocks[b]|, v.r);
    }
  }
}
