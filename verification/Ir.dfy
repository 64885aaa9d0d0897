/** The intermediate representation the whole-function analyses read. Block labels are
    resolved to positions: block 0 is the entry and blocks keep their textual order. */
module Ir {
  import opened Wrappers

  /** A value, function or global name. */
  datatype Name = Name(id: nat)

  datatype Val = Const(c: int) | Reg(r: Name) | Global(g: Name)

  /** A phi operand and the predecessor block it arrives from. */
  datatype Incoming = Incoming(val: Val, pred: nat)

  datatype Inst =
    | Load(dst: Name, width: nat, ptr: Val)
    | Store(ptr: Val, val: Val)
    | Gep(dst: Name, base: Val, terms: seq<Val>)
    | Select(dst: Name, width: nat, cond: Val, a: Val, b: Val)
    | Copy(dst: Name, width: nat, args: seq<Val>)     // bin, freeze, zext, sext, trunc, inttoptr
    | Icmp(dst: Name, a: Val, b: Val)
    | Float(dst: Name, width: nat, args: seq<Val>)    // float arithmetic, compare and conversion
    | Phi(dst: Name, width: nat, incoming: seq<Incoming>)
    | Call(result: Option<Name>, width: nat, func: Val, callees: seq<Name>, args: seq<Val>)
    | VaArg(dst: Name, width: nat, list: Val)
    | VaStart(list: Val)
    | Memcpy(to: Val, src: Val, len: Val)
    | Asm(operands: seq<Val>)
    | Ret(value: Option<Val>)
    | Jump(on: Option<Val>, targets: seq<nat>)        // br, conditional br, switch

  type Block = seq<Inst>

  datatype Param = Param(name: Name, width: nat)

  datatype Func = Func(
    name: Name, params: seq<Param>, blocks: seq<Block>, variadic: bool, naked: bool, isr: bool)

  datatype Module = Module(funcs: seq<Func>)

  function RegsOf(vs: seq<Val>): seq<Name> {
    if vs == [] then []
    else (if vs[0].Reg? then [vs[0].r] else []) + RegsOf(vs[1..])
  }

  /** The registers an instruction reads where it stands; a phi reads on its incoming edges. */
  function Reads(i: Inst): seq<Name> {
    match i
    case Load(_, _, p) => RegsOf([p])
    case Store(p, v) => RegsOf([p, v])
    case Gep(_, b, ts) => RegsOf([b] + ts)
    case Select(_, _, c, a, b) => RegsOf([c, a, b])
    case Copy(_, _, vs) => RegsOf(vs)
    case Icmp(_, a, b) => RegsOf([a, b])
    case Float(_, _, vs) => RegsOf(vs)
    case Phi(_, _, _) => []
    case Call(_, _, f, cs, vs) => RegsOf(vs + (if cs != [] then [f] else []))
    case VaArg(_, _, l) => RegsOf([l])
    case VaStart(l) => RegsOf([l])
    case Memcpy(t, s, n) => RegsOf([t, s, n])
    case Asm(ops) => RegsOf(ops)
    case Ret(v) => if v.Some? then RegsOf([v.value]) else []
    case Jump(v, _) => if v.Some? then RegsOf([v.value]) else []
  }

  // ---- Operands, with their values in place ------------------------------------------

  type Look = Name -> Option<int>

  /** An operand with its register's value in place, as far as it is known. */
  function FillVal(v: Val, look: Look): Val {
    if v.Reg? && look(v.r).Some? then Const(look(v.r).value) else v
  }

  function FillAll(vs: seq<Val>, look: Look): (r: seq<Val>)
    ensures |r| == |vs| && forall k :: 0 <= k < |vs| ==> r[k] == FillVal(vs[k], look)
  {
    if vs == [] then [] else [FillVal(vs[0], look)] + FillAll(vs[1..], look)
  }

  function FillOpt(v: Option<Val>, look: Look): Option<Val> {
    match v case Some(x) => Some(FillVal(x, look)) case None => None
  }

  /** The instruction with values in place of registers: all that a machine gets to see. The
      name of a direct call's target is no operand, and a phi is served on its edges. */
  function Fill(i: Inst, look: Look): Inst {
    match i
    case Load(d, w, p) => Load(d, w, FillVal(p, look))
    case Store(p, v) => Store(FillVal(p, look), FillVal(v, look))
    case Gep(d, b, ts) => Gep(d, FillVal(b, look), FillAll(ts, look))
    case Select(d, w, c, a, b) => Select(d, w, FillVal(c, look), FillVal(a, look), FillVal(b, look))
    case Copy(d, w, vs) => Copy(d, w, FillAll(vs, look))
    case Icmp(d, a, b) => Icmp(d, FillVal(a, look), FillVal(b, look))
    case Float(d, w, vs) => Float(d, w, FillAll(vs, look))
    case Phi(_, _, _) => i
    case Call(r, w, f, cs, vs) => Call(r, w, if cs != [] then FillVal(f, look) else f, cs, FillAll(vs, look))
    case VaArg(d, w, l) => VaArg(d, w, FillVal(l, look))
    case VaStart(l) => VaStart(FillVal(l, look))
    case Memcpy(t, s, n) => Memcpy(FillVal(t, look), FillVal(s, look), FillVal(n, look))
    case Asm(ops) => Asm(FillAll(ops, look))
    case Ret(v) => Ret(FillOpt(v, look))
    case Jump(v, ts) => Jump(FillOpt(v, look), ts)
  }

  predicate NoRegs(vs: seq<Val>) {
    forall k :: 0 <= k < |vs| ==> !vs[k].Reg?
  }

  /** No operand is a register. */
  predicate IsFilled(i: Inst) {
    && (i.Load? ==> !i.ptr.Reg?)
    && (i.Store? ==> !i.ptr.Reg? && !i.val.Reg?)
    && (i.Gep? ==> !i.base.Reg? && NoRegs(i.terms))
    && (i.Select? ==> !i.cond.Reg? && !i.a.Reg? && !i.b.Reg?)
    && (i.Copy? || i.Float? ==> NoRegs(i.args))
    && (i.Icmp? ==> !i.a.Reg? && !i.b.Reg?)
    && (i.Call? ==> NoRegs(i.args) && (i.callees != [] ==> !i.func.Reg?))
    && (i.VaArg? || i.VaStart? ==> !i.list.Reg?)
    && (i.Memcpy? ==> !i.to.Reg? && !i.src.Reg? && !i.len.Reg?)
    && (i.Asm? ==> NoRegs(i.operands))
    && (i.Ret? && i.value.Some? ==> !i.value.value.Reg?)
    && (i.Jump? && i.on.Some? ==> !i.on.value.Reg?)
  }

  lemma {:induction false} RegsAre(vs: seq<Val>, r: Name)
    ensures r in RegsOf(vs) <==> Reg(r) in vs
  {
    if vs != [] {
      RegsAre(vs[1..], r);
      assert vs == [vs[0]] + vs[1..];
    }
  }

  lemma FilledSeq(vs: seq<Val>, look: Look)
    ensures NoRegs(FillAll(vs, look)) <==> forall r :: r in RegsOf(vs) ==> look(r).Some?
  {
    forall r ensures r in RegsOf(vs) <==> Reg(r) in vs { RegsAre(vs, r); }
    if forall r :: r in RegsOf(vs) ==> look(r).Some? {
      forall k | 0 <= k < |vs| ensures !FillVal(vs[k], look).Reg? {
        if vs[k].Reg? {
          assert vs[k] == Reg(vs[k].r);
          assert vs[k].r in RegsOf(vs);
        }
      }
    }
    if NoRegs(FillAll(vs, look)) {
      forall r | r in RegsOf(vs) ensures look(r).Some? {
        var k :| 0 <= k < |vs| && vs[k] == Reg(r);
        assert !FillAll(vs, look)[k].Reg?;
      }
    }
  }

  /** The operands of an instruction, one list a constructor. */
  lemma FilledIs(i: Inst, look: Look)
    ensures IsFilled(Fill(i, look)) <==> forall r :: r in Reads(i) ==> look(r).Some?
  {
    hide RegsOf, FillAll;
    match i
    case Load(_, _, p) => FilledSeq([p], look); FillOne([p], look);
    case Store(p, v) => FilledSeq([p, v], look); FillOne([p, v], look);
    case Gep(_, b, ts) => FilledSeq([b] + ts, look); FillOne([b] + ts, look); FillTail(b, ts, look);
    case Select(_, _, c, a, b) => FilledSeq([c, a, b], look); FillOne([c, a, b], look);
    case Copy(_, _, vs) => FilledSeq(vs, look);
    case Icmp(_, a, b) => FilledSeq([a, b], look); FillOne([a, b], look);
    case Float(_, _, vs) => FilledSeq(vs, look);
    case Phi(_, _, _) =>
    case Call(_, _, f, cs, vs) =>
      FilledSeq(vs + (if cs != [] then [f] else []), look);
      FillLast(vs, if cs != [] then [f] else [], look);
    case VaArg(_, _, l) => FilledSeq([l], look); FillOne([l], look);
    case VaStart(l) => FilledSeq([l], look); FillOne([l], look);
    case Memcpy(t, s, n) => FilledSeq([t, s, n], look); FillOne([t, s, n], look);
    case Asm(ops) => FilledSeq(ops, look);
    case Ret(v) => if v.Some? { FilledSeq([v.value], look); FillOne([v.value], look); }
    case Jump(v, _) => if v.Some? { FilledSeq([v.value], look); FillOne([v.value], look); }
  }

  lemma FillOne(vs: seq<Val>, look: Look)
    ensures |vs| > 0 ==> FillAll(vs, look)[0] == FillVal(vs[0], look)
    ensures |vs| > 1 ==> FillAll(vs, look)[1] == FillVal(vs[1], look)
    ensures |vs| > 2 ==> FillAll(vs, look)[2] == FillVal(vs[2], look)
  {
  }

  lemma FillTail(b: Val, ts: seq<Val>, look: Look)
    ensures NoRegs(FillAll([b] + ts, look)) <==> !FillVal(b, look).Reg? && NoRegs(FillAll(ts, look))
  {
    var all, tail := FillAll([b] + ts, look), FillAll(ts, look);
    assert all[0] == FillVal(b, look);
    forall k | 0 <= k < |ts| ensures all[k + 1] == tail[k] { assert ([b] + ts)[k + 1] == ts[k]; }
    if !FillVal(b, look).Reg? && NoRegs(tail) {
      forall k | 0 <= k < |all| ensures !all[k].Reg? { if k > 0 { assert all[k] == tail[k - 1]; } }
    }
    if NoRegs(all) {
      forall k | 0 <= k < |tail| ensures !tail[k].Reg? { assert all[k + 1] == tail[k]; }
    }
  }

  lemma FillLast(vs: seq<Val>, ws: seq<Val>, look: Look)
    requires |ws| <= 1
    ensures NoRegs(FillAll(vs + ws, look)) <==>
      NoRegs(FillAll(vs, look)) && (ws != [] ==> !FillVal(ws[0], look).Reg?)
  {
    var all, head := FillAll(vs + ws, look), FillAll(vs, look);
    forall k | 0 <= k < |vs| ensures all[k] == head[k] { assert (vs + ws)[k] == vs[k]; }
    if ws != [] { assert all[|vs|] == FillVal(ws[0], look); }
  }

  /** Two lookups that agree on what an instruction reads fill it alike. */
  lemma FillSame(i: Inst, l1: Look, l2: Look)
    requires forall r :: r in Reads(i) ==> l1(r) == l2(r)
    ensures Fill(i, l1) == Fill(i, l2)
  {
    hide RegsOf;
    match i
    case Load(_, _, p) => SameSeq([p], l1, l2);
    case Store(p, v) => SameSeq([p, v], l1, l2);
    case Gep(_, b, ts) => SameSeq([b] + ts, l1, l2); SameParts([b], ts, l1, l2);
    case Select(_, _, c, a, b) => SameSeq([c, a, b], l1, l2);
    case Copy(_, _, vs) => SameSeq(vs, l1, l2);
    case Icmp(_, a, b) => SameSeq([a, b], l1, l2);
    case Float(_, _, vs) => SameSeq(vs, l1, l2);
    case Phi(_, _, _) =>
    case Call(_, _, f, cs, vs) =>
      var ws := if cs != [] then [f] else [];
      SameSeq(vs + ws, l1, l2);
      SameParts(vs, ws, l1, l2);
    case VaArg(_, _, l) => SameSeq([l], l1, l2);
    case VaStart(l) => SameSeq([l], l1, l2);
    case Memcpy(t, s, n) => SameSeq([t, s, n], l1, l2);
    case Asm(ops) => SameSeq(ops, l1, l2);
    case Ret(v) => if v.Some? { SameSeq([v.value], l1, l2); }
    case Jump(v, _) => if v.Some? { SameSeq([v.value], l1, l2); }
  }

  lemma SameSeq(vs: seq<Val>, l1: Look, l2: Look)
    requires forall r :: r in RegsOf(vs) ==> l1(r) == l2(r)
    ensures FillAll(vs, l1) == FillAll(vs, l2)
    ensures forall k :: 0 <= k < |vs| ==> FillVal(vs[k], l1) == FillVal(vs[k], l2)
    ensures |vs| > 0 ==> FillVal(vs[0], l1) == FillVal(vs[0], l2)
    ensures |vs| > 1 ==> FillVal(vs[1], l1) == FillVal(vs[1], l2)
    ensures |vs| > 2 ==> FillVal(vs[2], l1) == FillVal(vs[2], l2)
  {
    hide RegsOf, FillAll;
    forall k | 0 <= k < |vs| ensures FillVal(vs[k], l1) == FillVal(vs[k], l2) {
      if vs[k].Reg? {
        RegsAre(vs, vs[k].r);
        assert vs[k] == Reg(vs[k].r);
      }
    }
  }

  lemma SameParts(vs: seq<Val>, ws: seq<Val>, l1: Look, l2: Look)
    requires forall k :: 0 <= k < |vs + ws| ==> FillVal((vs + ws)[k], l1) == FillVal((vs + ws)[k], l2)
    ensures FillAll(vs, l1) == FillAll(vs, l2) && FillAll(ws, l1) == FillAll(ws, l2)
    ensures vs != [] ==> FillVal(vs[0], l1) == FillVal(vs[0], l2)
    ensures ws != [] ==> FillVal(ws[0], l1) == FillVal(ws[0], l2)
  {
    forall k | 0 <= k < |vs| ensures FillVal(vs[k], l1) == FillVal(vs[k], l2) { assert (vs + ws)[k] == vs[k]; }
    forall k | 0 <= k < |ws| ensures FillVal(ws[k], l1) == FillVal(ws[k], l2) { assert (vs + ws)[|vs| + k] == ws[k]; }
  }

  /** The value an instruction defines in a slot of its own, with its width. A Gep is a
      virtual address and defines none. */
  function DefOf(i: Inst): Option<(Name, nat)> {
    match i
    case Load(d, w, _) => Some((d, w))
    case Select(d, w, _, _, _) => Some((d, w))
    case Copy(d, w, _) => Some((d, w))
    case Icmp(d, _, _) => Some((d, 1))
    case Float(d, w, _) => Some((d, w))
    case Phi(d, w, _) => Some((d, w))
    case Call(r, w, _, _, _) => if r.Some? then Some((r.value, w)) else None
    case VaArg(d, w, _) => Some((d, w))
    case _ => None
  }

  /** The successor blocks named by a block's instructions. */
  function Succs(b: Block): seq<nat> {
    if b == [] then []
    else (if b[0].Jump? then b[0].targets else []) + Succs(b[1..])
  }

  function SuccGraph(blocks: seq<Block>): (g: seq<seq<nat>>)
    ensures |g| == |blocks|
    ensures forall i :: 0 <= i < |blocks| ==> g[i] == Succs(blocks[i])
  {
    if blocks == [] then [] else [Succs(blocks[0])] + SuccGraph(blocks[1..])
  }

  /** What has a destination of its own defines it, with its own width; a compare is one byte. */
  lemma DefOfIs(i: Inst)
    ensures DefOf(i).Some? <==>
      i.Load? || i.Select? || i.Copy? || i.Icmp? || i.Float? || i.Phi? || i.VaArg? || (i.Call? && i.result.Some?)
    ensures DefOf(i).Some? ==> DefOf(i).value.0 == if i.Call? then i.result.value else i.dst
    ensures DefOf(i).Some? ==> DefOf(i).value.1 == if i.Icmp? then 1 else i.width
  {
  }

  /** A block's successors are the targets of its jumps. */
  lemma {:induction false} SuccsAre(b: Block, s: nat)
    ensures s in Succs(b) <==> exists k: nat :: k < |b| && b[k].Jump? && s in b[k].targets
  {
    if b != [] {
      SuccsAre(b[1..], s);
      if k: nat :| k < |b[1..]| && b[1..][k].Jump? && s in b[1..][k].targets {
        assert b[k + 1] == b[1..][k];
      }
      if k: nat :| k < |b| && b[k].Jump? && s in b[k].targets {
        if k > 0 { assert b[1..][k - 1] == b[k]; }
      }
    }
  }
}
