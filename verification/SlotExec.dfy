/** Running a function in SSA form, and running it on its coloured slots, along a path of the
    control-flow graph. */
module SlotExec {
  import opened Wrappers
  import opened Points
  import opened Ir
  import opened Liveness
  import opened LiveRanges
  import opened Coloring

  type Env = map<Name, int>
  type Slots = map<nat, int>

  /** The machine, left open: what an instruction computes from its operands and the outside
      world (memory, ports, callees), and the value of a constant operand. */
  datatype Machine = Machine(
    eval: (Inst, int) -> int,         // of an instruction with its operands' values in place
    outside: (nat, nat) -> int,       // by path step and position
    constant: Val -> int,
    arg: Name -> int)

  // ---- SSA execution -----------------------------------------------------------------

  /** A register's value in SSA execution, once it has one. */
  function EnvLook(env: Env): Look {
    (r: Name) => if r in env then Some(env[r]) else None
  }

  /** The instruction with its operands' SSA values. */
  function FillEnv(i: Inst, env: Env): Inst {
    Fill(i, EnvLook(env))
  }

  /** The machine computes from the operands' values; `None` when one has none yet. */
  function StepEnv(m: Machine, i: Inst, env: Env, outside: int): Option<Env> {
    if i.Phi? then Some(env)
    else if !IsFilled(FillEnv(i, env)) then None
    else match DefOf(i)
      case None => Some(env)
      case Some((d, _)) => Some(env[d := m.eval(FillEnv(i, env), outside)])
  }

  /** The operand a phi takes on the edge from `pred`. */
  function Taken(inc: seq<Incoming>, pred: nat): (r: Option<Val>)
    ensures r.None? ==> forall k :: 0 <= k < |inc| ==> inc[k].pred != pred
    ensures r.Some? ==> exists k :: 0 <= k < |inc| && inc[k] == Incoming(r.value, pred)
  {
    if inc == [] then None
    else if inc[0].pred == pred then Some(inc[0].val)
    else Taken(inc[1..], pred)
  }

  function ValEnv(m: Machine, env: Env, v: Val): Option<int> {
    match v
    case Reg(r) => if r in env then Some(env[r]) else None
    case _ => Some(m.constant(v))
  }

  /** The copies of the leading phis of `b` on the edge from `pred`: destination and value,
      all read in the state before the edge. */
  function CopyList(m: Machine, b: Block, pred: nat, env: Env): Option<seq<(Name, int)>>
    decreases |b|
  {
    if b == [] || !b[0].Phi? then Some([])
    else match Taken(b[0].incoming, pred)
      case None => None
      case Some(v) =>
        match (ValEnv(m, env, v), CopyList(m, b[1..], pred, env))
        case (Some(x), Some(rest)) => Some([(b[0].dst, x)] + rest)
        case _ => None
  }

  function WriteEnv(env: Env, copies: seq<(Name, int)>): Env
    decreases |copies|
  {
    if copies == [] then env
    else WriteEnv(env[copies[0].0 := copies[0].1], copies[1..])
  }

  function Args(m: Machine, ps: seq<Param>): Env {
    if ps == [] then map[] else Args(m, ps[1..])[ps[0].name := m.arg(ps[0].name)]
  }

  /** The SSA environment just before instruction `q` of step `j` of the path. */
  function EnvAt(f: Func, m: Machine, p: seq<nat>, j: nat, q: nat): Option<Env>
    requires j < |p| && (forall k :: 0 <= k < |p| ==> p[k] < |f.blocks|) && q <= |f.blocks[p[j]]|
    decreases j, q
  {
    if q > 0 then
      match EnvAt(f, m, p, j, q - 1)
      case None => None
      case Some(env) => StepEnv(m, f.blocks[p[j]][q - 1], env, m.outside(j, q - 1))
    else if j > 0 then
      match EnvAt(f, m, p, j - 1, |f.blocks[p[j - 1]]|)
      case None => None
      case Some(env) =>
        match CopyList(m, f.blocks[p[j]], p[j - 1], env)
        case None => None
        case Some(cs) => Some(WriteEnv(env, cs))
    else Some(Args(m, f.params))
  }

  // ---- Slot execution ----------------------------------------------------------------

  function Slot(slots: Slots, s: nat): int {
    if s in slots then slots[s] else 0
  }

  function SlotIn(slotOf: map<Name, nat>, slots: Slots, v: Name): int {
    if v in slotOf then Slot(slots, slotOf[v]) else 0
  }

  function SlotLook(slotOf: map<Name, nat>, slots: Slots): Look {
    (r: Name) => Some(SlotIn(slotOf, slots, r))
  }

  /** The instruction with what is in its operands' slots. */
  function FillSlots(slotOf: map<Name, nat>, slots: Slots, i: Inst): Inst {
    Fill(i, SlotLook(slotOf, slots))
  }

  /** What the functions called at a path step and position leave in slots of this frame. */
  type Noise = (nat, nat) -> Slots

  /** No callee touches the frame. */
  const QUIET: Noise := (j: nat, q: nat) => map[]

  /** Operands are read before a callee runs, and the result is written when it is back. */
  function StepSlots(m: Machine, slotOf: map<Name, nat>, i: Inst, slots: Slots, outside: int, noise: Slots): Slots {
    if i.Phi? then slots
    else
      var back := if i.Call? then slots + noise else slots;
      match DefOf(i)
      case None => back
      case Some((d, _)) =>
        if d in slotOf then back[slotOf[d] := m.eval(FillSlots(slotOf, slots, i), outside)]
        else back
  }

  function ValSlots(m: Machine, slotOf: map<Name, nat>, slots: Slots, v: Val): int {
    match v
    case Reg(r) => SlotIn(slotOf, slots, r)
    case _ => m.constant(v)
  }

  function CopySlots(m: Machine, slotOf: map<Name, nat>, b: Block, pred: nat, slots: Slots): seq<(Name, int)>
    decreases |b|
  {
    if b == [] || !b[0].Phi? then []
    else match Taken(b[0].incoming, pred)
      case None => CopySlots(m, slotOf, b[1..], pred, slots)
      case Some(v) => [(b[0].dst, ValSlots(m, slotOf, slots, v))] + CopySlots(m, slotOf, b[1..], pred, slots)
  }

  function WriteSlots(slotOf: map<Name, nat>, slots: Slots, copies: seq<(Name, int)>): Slots
    decreases |copies|
  {
    if copies == [] then slots
    else
      var s := if copies[0].0 in slotOf then slots[slotOf[copies[0].0] := copies[0].1] else slots;
      WriteSlots(slotOf, s, copies[1..])
  }

  function ArgSlots(m: Machine, slotOf: map<Name, nat>, ps: seq<Param>): Slots {
    if ps == [] then map[]
    else
      var rest := ArgSlots(m, slotOf, ps[1..]);
      if ps[0].name in slotOf then rest[slotOf[ps[0].name] := m.arg(ps[0].name)] else rest
  }

  function SlotsAt(f: Func, m: Machine, slotOf: map<Name, nat>, p: seq<nat>, j: nat, q: nat, noise: Noise): Slots
    requires j < |p| && (forall k :: 0 <= k < |p| ==> p[k] < |f.blocks|) && q <= |f.blocks[p[j]]|
    decreases j, q
  {
    if q > 0 then
      StepSlots(m, slotOf, f.blocks[p[j]][q - 1], SlotsAt(f, m, slotOf, p, j, q - 1, noise), m.outside(j, q - 1),
        noise(j, q - 1))
    else if j > 0 then
      var slots := SlotsAt(f, m, slotOf, p, j - 1, |f.blocks[p[j - 1]]|, noise);
      WriteSlots(slotOf, slots, CopySlots(m, slotOf, f.blocks[p[j]], p[j - 1], slots))
    else ArgSlots(m, slotOf, f.params)
  }

  // ---- The layout used ---------------------------------------------------------------

  /** A frame coloured without pins: every value has a slot, and values sharing one have
      disjoint ranges. */
  ghost predicate IsPinFree(f: Func, F: Facts, lay: Layout) {
    && IsFacts(f, F)
    && lay.info.Keys == F.defs.Keys == lay.slotOf.Keys
    && (forall v :: v in lay.info ==> IsRange(f, F, v, lay.info[v].range))
    && (forall u, v :: u in lay.slotOf && v in lay.slotOf && u != v && lay.slotOf[u] == lay.slotOf[v] ==>
          Disjoint(lay.info[u].range, lay.info[v].range))
  }

  /** A callee at `at` may change only slots that hold no value live there, the call's own
      result apart. */
  ghost predicate Harmless(lay: Layout, at: Point, result: Option<Name>, noise: Slots) {
    forall v :: v in lay.slotOf && v in lay.info && lay.slotOf[v] in noise ==>
      !Contains(lay.info[v].range, at) || result == Some(v)
  }

  ghost predicate HarmlessRun(f: Func, lay: Layout, p: seq<nat>, noise: Noise)
    requires forall k :: 0 <= k < |p| ==> p[k] < |f.blocks|
  {
    forall j: nat, q: nat :: j < |p| && q < |f.blocks[p[j]]| && f.blocks[p[j]][q].Call? ==>
      Harmless(lay, Point(p[j], q), f.blocks[p[j]][q].result, noise(j, q))
  }

  /** What `FrameLayout` returns without pins is such a frame. */
  lemma UnpinnedLayout(f: Func, F: Facts, lay: Layout)
    requires IsFacts(f, F) && lay.info.Keys == F.defs.Keys == lay.slotOf.Keys
    requires forall v :: v in lay.info ==> IsRange(f, F, v, lay.info[v].range)
    requires Coloured(lay.info, map[], map[], lay.slots, lay.slotOf)
    ensures IsPinFree(f, F, lay)
  {
    hide WellFormed, Equations, IsDefMap;
    hide IsFacts, IsRange, Fits, Tight;
    forall u, v | u in lay.slotOf && v in lay.slotOf && u != v && lay.slotOf[u] == lay.slotOf[v]
      ensures Disjoint(lay.info[u].range, lay.info[v].range)
    {
      assert Compatible(lay.info, map[], map[], u, v);
    }
  }
}
