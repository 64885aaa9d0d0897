/** What "not retained" means on a machine whose memory and call results carry taint too: loads
    may read back whatever was stored, and calls run their callees' bodies. */
module RetentionRuns {
  import opened Wrappers
  import opened Retention

  /** The registers that hold something derived, whether memory does, and whether the function
      has returned something derived. */
  datatype State = State(regs: set<Reg>, mem: bool, ret: bool)

  /** `d` becomes derived, or not; it can only when `may` holds. */
  ghost predicate Assigned(s: set<Reg>, d: Option<Reg>, may: bool, s': set<Reg>) {
    match d
    case None => s' == s
    case Some(r) => s' == s - {r} || (may && s' == s + {r})
  }

  /** Some argument, or the called pointer, holds something derived. */
  ghost predicate Handing(args: seq<Option<Reg>>, e: set<Reg>) {
    exists j :: 0 <= j < |args| && args[j].Some? && args[j].value in e
  }

  /** What holds something derived when a function is entered: some of its parameters, and
      whether its variadic tail does. */
  datatype Bound = Bound(params: set<nat>, tail: bool)

  /** Argument `j` of a call holds something derived. */
  ghost predicate HandsOver(args: seq<Option<Reg>>, e: set<Reg>, j: nat) {
    j < |args| && args[j].Some? && args[j].value in e
  }

  /** The call binds argument `j` to parameter `j`; what is left over goes to the variadic tail. */
  ghost function Bind(f: Func, args: seq<Option<Reg>>, e: set<Reg>): Bound {
    Bound((set j | 0 <= j < |f.params| && HandsOver(args, e, j)),
          f.variadic && exists j: nat :: j >= |f.params| && HandsOver(args, e, j))
  }

  /** Something derived is left over that the callee has no room for. */
  ghost predicate Surplus(f: Func, args: seq<Option<Reg>>, e: set<Reg>) {
    !f.variadic && exists j: nat :: j >= |f.params| && HandsOver(args, e, j)
  }

  /** The parameter registers that hold something derived on entry. */
  ghost function BoundRegs(f: Func, b: Bound): set<Reg> {
    set j | 0 <= j < |f.params| && j in b.params :: f.params[j]
  }

  /** The slots of the analysis that stand for a binding. */
  ghost function SlotsFor(b: Bound): set<Slot> {
    (set j | j in b.params :: Param(j)) + if b.tail then {VaTail} else {}
  }

  lemma BindIs(f: Func, args: seq<Option<Reg>>, e: set<Reg>)
    ensures Slots(Handed(f, args, e)) == SlotsFor(Bind(f, args, e))
    ensures None in Handed(f, args, e) <==> Surplus(f, args, e)
  {
    var h, b := Handed(f, args, e), Bind(f, args, e);
    forall s ensures s in Slots(h) <==> s in SlotsFor(b) {
      if s in Slots(h) {
        assert Some(s) in h;
        var j :| 0 <= j < |args| && args[j].Some? && args[j].value in e && SlotOf(f, j) == Some(s);
        assert HandsOver(args, e, j);
      }
      if s in SlotsFor(b) {
        var j: nat :| HandsOver(args, e, j) && (if s.Param? then j == s.i && j < |f.params| else j >= |f.params|);
        assert SlotOf(f, j) == Some(s);
        assert Some(s) in h;
      }
    }
    if None in h {
      var j :| 0 <= j < |args| && args[j].Some? && args[j].value in e && SlotOf(f, j) == None;
      assert HandsOver(args, e, j);
    }
    if Surplus(f, args, e) {
      var j: nat :| j >= |f.params| && HandsOver(args, e, j);
      assert SlotOf(f, j) == None;
    }
  }

  lemma EntryIs(f: Func, b: Bound)
    ensures Entry(f, SlotsFor(b)) == BoundRegs(f, b)
    ensures VaTail in SlotsFor(b) <==> b.tail
  {
  }

  /** One instruction, followed `n` calls deep. A load may read whatever memory holds; code out
      of sight may store what it is handed and return anything memory holds. */
  ghost predicate StepTo(m: Module, i: Inst, tail: bool, s: State, s': State, n: nat)
    decreases n, 0
  {
    match i
    case Derive(d, srcs) =>
      s' == s.(regs := if srcs * s.regs != {} then s.regs + {d} else s.regs - {d})
    case VaArg(d) =>
      s' == s.(regs := if tail then s.regs + {d} else s.regs - {d})
    case Define(d) => s'.mem == s.mem && s'.ret == s.ret && Assigned(s.regs, Some(d), s.mem, s'.regs)
    case Store(Some(v)) => s' == s.(mem := s.mem || v in s.regs)
    case Ret(Some(v)) => s' == s.(ret := s.ret || v in s.regs)
    case Opaque(d, uses) => OutOfSight(d, uses * s.regs != {}, s, s')
    case Call(d, Indirect(p), args) => OutOfSight(d, p in s.regs || Handing(args, s.regs), s, s')
    case Call(d, Direct(g), args) =>
      if g !in m || m[g].naked then OutOfSight(d, Handing(args, s.regs), s, s')
      else
        n > 0 && s'.ret == s.ret && exists back: State ::
          && Ends(m, m[g], Bind(m[g], args, s.regs), s.mem, back, n - 1)
          && s'.mem == (back.mem || Surplus(m[g], args, s.regs))
          && Assigned(s.regs, d, back.ret || s'.mem, s'.regs)
    case _ => s' == s
  }

  ghost predicate OutOfSight(d: Option<Reg>, handed: bool, s: State, s': State) {
    s'.mem == (s.mem || handed) && s'.ret == s.ret && Assigned(s.regs, d, s'.mem, s'.regs)
  }

  /** `f`, entered with derived values as `b` says and memory as `mem` says, can get to `end`. */
  ghost predicate Ends(m: Module, f: Func, b: Bound, mem: bool, end: State, n: nat)
    decreases n, 3
  {
    exists path: seq<nat>, trace: seq<State> :: RunsTo(m, f, b, mem, path, trace, end, n)
  }

  /** `trace` lists the states of a run of `path`. */
  ghost predicate RunsTo(m: Module, f: Func, b: Bound, mem: bool, path: seq<nat>, trace: seq<State>, end: State, n: nat)
    decreases n, 2
  {
    && IsPath(f, path) && |trace| == |path| + 1
    && trace[0] == State(BoundRegs(f, b), mem, false) && trace[|path|] == end
    && forall k: nat :: k < |path| ==> RunStep(m, f, b, path, trace, k, n)
  }

  ghost predicate RunStep(m: Module, f: Func, b: Bound, path: seq<nat>, trace: seq<State>, k: nat, n: nat)
    requires IsPath(f, path) && |trace| == |path| + 1 && k < |path|
    decreases n, 1
  {
    StepTo(m, f.body[path[k]], b.tail, trace[k], trace[k + 1], n)
  }

  /** Nothing the analysis follows from a binding is ever kept. */
  ghost predicate QuietFrom(m: Module, f: Func, b: Bound) {
    Quiet(m, f, SlotsFor(b))
  }

  /** Up to its first leak a run derives exactly what `Derived` says, and a quiet function never
      leaks: neither memory nor its result ever holds anything derived. */
  lemma {:induction false} QuietRun(m: Module, f: Func, b: Bound, path: seq<nat>, trace: seq<State>, end: State,
                                    n: nat, k: nat)
    requires QuietFrom(m, f, b) && RunsTo(m, f, b, false, path, trace, end, n) && k <= |path|
    ensures IsPath(f, path[..k]) && trace[k] == State(Derived(f, SlotsFor(b), path[..k]), false, false)
    decreases n, k, 2
  {
    EntryIs(f, b);
    if k > 0 {
      QuietRun(m, f, b, path, trace, end, n, k - 1);
      assert path[..k][..k - 1] == path[..k - 1];
      assert RunStep(m, f, b, path, trace, k - 1, n);
      NothingKept(m, f, SlotsFor(b), path[..k - 1], path[k - 1]);
      QuietStep(m, f.body[path[k - 1]], SlotsFor(b), trace[k - 1], trace[k], n);
    } else {
      assert path[..0] == [];
    }
  }

  lemma NothingKept(m: Module, f: Func, seeds: set<Slot>, path: seq<nat>, k: nat)
    requires Quiet(m, f, seeds) && IsPath(f, path) && k < |f.body|
    ensures UseSafe(m, f.body[k], Derived(f, seeds, path))
  {
    hide Keeps, Derived;
    forall n: nat ensures !Keeps(m, f.body[k], Derived(f, seeds, path), n) {
      assert !Leaks(m, f, seeds, n);
      assert !LeaksAt(m, f, seeds, path, k, n);
    }
  }

  lemma {:induction false} QuietStep(m: Module, i: Inst, seeds: set<Slot>, s: State, s': State, n: nat)
    requires UseSafe(m, i, s.regs) && !s.mem && !s.ret && StepTo(m, i, VaTail in seeds, s, s', n)
    ensures s' == State(Pass(i, seeds, s.regs), false, false)
    decreases n, 0, 1
  {
    hide Leaks, Ends, Bind, Surplus;
    assert !Keeps(m, i, s.regs, 0);
    if IntoText(m, i) {
      var g := m[i.callee.name];
      var back: State :| Ends(m, g, Bind(g, i.args, s.regs), false, back, n - 1)
        && s'.mem == (back.mem || Surplus(g, i.args, s.regs))
        && Assigned(s.regs, i.result, back.ret || s'.mem, s'.regs);
      CalleeQuiet(m, i, s.regs);
      QuietEnds(m, g, Bind(g, i.args, s.regs), back, n - 1);
    }
  }

  lemma CalleeQuiet(m: Module, i: Inst, e: set<Reg>)
    requires UseSafe(m, i, e) && i.Call? && i.callee.Direct? && i.callee.name in m && !m[i.callee.name].naked
    ensures var g := m[i.callee.name]; !Surplus(g, i.args, e) && QuietFrom(m, g, Bind(g, i.args, e))
  {
    hide Leaks, Bind, Surplus, SlotsFor;
    var g := m[i.callee.name];
    BindIs(g, i.args, e);
    assert !Keeps(m, i, e, 0);
    forall n: nat ensures !Leaks(m, g, Slots(Handed(g, i.args, e)), n) {
      assert !Keeps(m, i, e, n + 1);
    }
  }

  lemma {:induction false} QuietEnds(m: Module, f: Func, b: Bound, end: State, n: nat)
    requires QuietFrom(m, f, b) && Ends(m, f, b, false, end, n)
    ensures !end.mem && !end.ret
    decreases n + 1, 0, 0
  {
    hide RunStep, Quiet;
    var path: seq<nat>, trace: seq<State> :| RunsTo(m, f, b, false, path, trace, end, n);
    QuietRun(m, f, b, path, trace, end, n, |path|);
  }

  /** The binding when argument `j` alone holds something derived. */
  ghost function OnlyArg(f: Func, j: nat): Bound {
    if j < |f.params| then Bound({j}, false) else Bound({}, f.variadic)
  }

  /** The verdict on an argument: when it is "not retained", the callee has room for it, and no
      run of the callee entered with that argument alone derived, parameter `j` or the variadic
      tail, however deep its calls go, ends with anything derived in memory or in its result. */
  lemma NotRetainedIsSafe(m: Module, rank: map<FuncName, nat>, g: FuncName, j: nat, end: State, n: nat)
    requires ArgSays(m, rank, Direct(g), j, false)
    ensures g in m && !m[g].naked && (j < |m[g].params| || m[g].variadic)
    ensures Ends(m, m[g], OnlyArg(m[g], j), false, end, n) ==> !end.mem && !end.ret
  {
    hide Ends, Quiet;
    var slot := SlotOf(m[g], j).value;
    assert SlotsFor(OnlyArg(m[g], j)) == {slot};
    if Ends(m, m[g], OnlyArg(m[g], j), false, end, n) { QuietEnds(m, m[g], OnlyArg(m[g], j), end, n); }
  }

  // ---- "Retained" is never idle ------------------------------------------------------

  /** A direct call of a function whose body is there to follow. */
  predicate IntoText(m: Module, i: Inst) {
    i.Call? && i.callee.Direct? && i.callee.name in m && !m[i.callee.name].naked
  }

  /** Some activation reached from `f`, at most `n` calls deep and with nothing derived in memory
      before it, stores or returns something derived. */
  ghost predicate Escapes(m: Module, f: Func, b: Bound, n: nat)
    decreases n, 0
  {
    || (exists end: State :: Ends(m, f, b, false, end, n) && (end.mem || end.ret))
    || (n > 0 && exists e: set<Reg>, i: Inst ::
          Ends(m, f, b, false, State(e, false, false), n) && i in f.body && EscapesInto(m, i, e, n - 1))
  }

  ghost predicate EscapesInto(m: Module, i: Inst, e: set<Reg>, n: nat)
    decreases n, 1
  {
    IntoText(m, i) && Escapes(m, m[i.callee.name], Bind(m[i.callee.name], i.args, e), n)
  }

  /** Nothing run yet is a run. */
  lemma EndsAtOnce(m: Module, f: Func, b: Bound, mem: bool, n: nat)
    ensures Ends(m, f, b, mem, State(BoundRegs(f, b), mem, false), n)
  {
    assert RunsTo(m, f, b, mem, [], [State(BoundRegs(f, b), mem, false)], State(BoundRegs(f, b), mem, false), n);
  }

  /** One more instruction makes a run longer. */
  lemma EndsNext(m: Module, f: Func, b: Bound, mem: bool, s: State, k: nat, s': State, n: nat)
    requires Ends(m, f, b, mem, s, n) && k < |f.body| && StepTo(m, f.body[k], b.tail, s, s', n)
    ensures Ends(m, f, b, mem, s', n)
  {
    hide StepTo;
    var path: seq<nat>, trace: seq<State> :| RunsTo(m, f, b, mem, path, trace, s, n);
    var path', trace' := path + [k], trace + [s'];
    forall j: nat | j < |path'| ensures RunStep(m, f, b, path', trace', j, n) {
      if j < |path| { assert RunStep(m, f, b, path, trace, j, n); }
    }
    assert RunsTo(m, f, b, mem, path', trace', s', n);
  }

  /** An instruction that keeps nothing can pass on exactly what is derived. */
  lemma PassStep(m: Module, i: Inst, tail: bool, seeds: set<Slot>, e: set<Reg>, n: nat)
    requires !Keeps(m, i, e, n) && (tail <==> VaTail in seeds)
    ensures StepTo(m, i, tail, State(e, false, false), State(Pass(i, seeds, e), false, false), n + 1)
  {
    hide Ends, Leaks, Bind, Surplus;
    if IntoText(m, i) {
      var g := m[i.callee.name];
      BindIs(g, i.args, e);
      EndsAtOnce(m, g, Bind(g, i.args, e), false, n);
    }
  }

  lemma EscapesBy(m: Module, f: Func, b: Bound, e: set<Reg>, i: Inst, n: nat)
    requires Ends(m, f, b, false, State(e, false, false), n + 1) && i in f.body && EscapesInto(m, i, e, n)
    ensures Escapes(m, f, b, n + 1)
  {
    hide Ends, EscapesInto;
  }

  /** A run that gets to an instruction that keeps something escapes there. */
  lemma {:induction false} KeptEscapes(m: Module, f: Func, b: Bound, e: set<Reg>, k: nat, n: nat)
    requires k < |f.body| && Ends(m, f, b, false, State(e, false, false), n + 1) && Keeps(m, f.body[k], e, n)
    ensures Escapes(m, f, b, n + 1)
    decreases n, 1
  {
    hide Ends, Leaks, Bind, Surplus, SlotsFor, BoundRegs;
    var i, s := f.body[k], State(e, false, false);
    if IntoText(m, i) {
      var g := m[i.callee.name];
      var bind := Bind(g, i.args, e);
      BindIs(g, i.args, e);
      if Surplus(g, i.args, e) {
        EndsAtOnce(m, g, bind, false, n);
        EndsNext(m, f, b, false, s, k, State(Without(e, i.result), true, false), n + 1);
      } else {
        LeakEscapes(m, g, bind, n - 1);
        EscapesBy(m, f, b, e, i, n);
      }
    } else {
      var s' := State(if i.Call? || i.Opaque? then Without(e, i.result) else e, !i.Ret?, i.Ret?);
      EndsNext(m, f, b, false, s, k, s', n + 1);
    }
  }

  function Without(e: set<Reg>, d: Option<Reg>): set<Reg> {
    match d case Some(r) => e - {r} case None => e
  }

  /** Along a path either something escapes, or a run derives what the analysis follows. */
  lemma {:induction false} PathEscapes(m: Module, f: Func, b: Bound, path: seq<nat>, n: nat)
    requires IsPath(f, path)
    ensures Escapes(m, f, b, n + 1) || Ends(m, f, b, false, State(Derived(f, SlotsFor(b), path), false, false), n + 1)
    decreases n, 2, |path|
  {
    hide Ends, Keeps, StepTo, Escapes;
    EntryIs(f, b);
    if path == [] {
      EndsAtOnce(m, f, b, false, n + 1);
    } else {
      var before, k := path[..|path| - 1], path[|path| - 1];
      PathEscapes(m, f, b, before, n);
      if !Escapes(m, f, b, n + 1) {
        var e := Derived(f, SlotsFor(b), before);
        if Keeps(m, f.body[k], e, n) {
          KeptEscapes(m, f, b, e, k, n);
        } else {
          PassStep(m, f.body[k], b.tail, SlotsFor(b), e, n);
          var s' := State(Pass(f.body[k], SlotsFor(b), e), false, false);
          EndsNext(m, f, b, false, State(e, false, false), k, s', n + 1);
        }
      }
    }
  }

  /** What leaks for the analysis escapes on the machine. */
  lemma {:induction false} LeakEscapes(m: Module, f: Func, b: Bound, n: nat)
    requires Leaks(m, f, SlotsFor(b), n)
    ensures Escapes(m, f, b, n + 1)
    decreases n, 3
  {
    hide Ends, Keeps, Escapes, SlotsFor;
    var path: seq<nat>, k: nat :| LeaksAt(m, f, SlotsFor(b), path, k, n);
    PathEscapes(m, f, b, path, n);
    if !Escapes(m, f, b, n + 1) {
      KeptEscapes(m, f, b, Derived(f, SlotsFor(b), path), k, n);
    }
  }

  /** The other verdict: without recursion, a "retained" argument that the callee has room for
      escapes on some run. */
  lemma RetainedIsReal(m: Module, rank: map<FuncName, nat>, g: FuncName, j: nat)
    requires ArgSays(m, rank, Direct(g), j, true) && Acyclic(m, rank)
    requires g in m && !m[g].naked && (j < |m[g].params| || m[g].variadic)
    ensures exists n: nat :: Escapes(m, m[g], OnlyArg(m[g], j), n)
  {
    hide Escapes, Leaks;
    var slot := SlotOf(m[g], j).value;
    assert SlotsFor(OnlyArg(m[g], j)) == {slot};
    var n: nat :| Leaks(m, m[g], {slot}, n);
    LeakEscapes(m, m[g], OnlyArg(m[g], j), n);
    assert Escapes(m, m[g], OnlyArg(m[g], j), n + 1);
  }
}
