/** Whether a callee can keep a pointer it is handed: a memoised, interprocedural taint walk,
    proved against runs in which values carry where they came from. */
module Retention {
  import opened Wrappers

  datatype Reg = Reg(id: nat)
  datatype FuncName = FuncName(id: nat)

  datatype Callee = Direct(name: FuncName) | Indirect(ptr: Reg)

  datatype Inst =
    | Derive(dst: Reg, srcs: set<Reg>)    // gep, select, phi, freeze, bin, casts, inttoptr
    | VaArg(dst: Reg)
    | Define(dst: Reg)                    // load, address compare: the result keeps nothing
    | Store(val: Option<Reg>)
    | Ret(val: Option<Reg>)
    | Call(result: Option<Reg>, callee: Callee, args: seq<Option<Reg>>)
    | Opaque(result: Option<Reg>, uses: set<Reg>)  // asm operands, a copy length, float operands
    | Plain

  datatype Func = Func(params: seq<Reg>, variadic: bool, naked: bool, body: seq<Inst>)

  type Module = map<FuncName, Func>

  /** What an argument is to its callee: a parameter, or part of the variadic tail. */
  datatype Slot = Param(i: nat) | VaTail

  function SlotOf(f: Func, i: nat): Option<Slot> {
    if i < |f.params| then Some(Param(i)) else if f.variadic then Some(VaTail) else None
  }

  // ---- Runs --------------------------------------------------------------------------

  /** The registers holding a seed's value on entry. */
  ghost function Entry(f: Func, seeds: set<Slot>): set<Reg> {
    set i | 0 <= i < |f.params| && Param(i) in seeds :: f.params[i]
  }

  /** The registers derived from the seeds after one more instruction, as long as nothing has
      been kept: memory and call results then hold nothing derived. */
  function Pass(i: Inst, seeds: set<Slot>, e: set<Reg>): set<Reg> {
    match i
    case Derive(d, srcs) => if srcs * e != {} then e + {d} else e - {d}
    case VaArg(d) => if VaTail in seeds then e + {d} else e - {d}
    case Define(d) => e - {d}
    case Call(Some(d), _, _) => e - {d}
    case Opaque(Some(d), _) => e - {d}
    case _ => e
  }

  /** `path` runs instructions of `f`'s body, in any order: every control-flow path is one. */
  ghost predicate IsPath(f: Func, path: seq<nat>) {
    forall k :: 0 <= k < |path| ==> path[k] < |f.body|
  }

  ghost function Derived(f: Func, seeds: set<Slot>, path: seq<nat>): set<Reg>
    requires IsPath(f, path)
  {
    if path == [] then Entry(f, seeds)
    else Pass(f.body[path[|path| - 1]], seeds, Derived(f, seeds, path[..|path| - 1]))
  }

  /** The callee slots that derived arguments are passed in; `None` for one the callee has no
      slot for. */
  ghost function Handed(f: Func, args: seq<Option<Reg>>, e: set<Reg>): set<Option<Slot>> {
    set j | 0 <= j < |args| && args[j].Some? && args[j].value in e :: SlotOf(f, j)
  }

  function Slots(s: set<Option<Slot>>): set<Slot> {
    set x | x in s && x.Some? :: x.value
  }

  /** With `e` derived, instruction `i` keeps something derived: in memory, in the result, out
      of sight, or through a direct call, followed `n` calls deep. */
  ghost predicate Keeps(m: Module, i: Inst, e: set<Reg>, n: nat)
    decreases n, 1
  {
    match i
    case Store(Some(v)) => v in e
    case Ret(Some(v)) => v in e
    case Opaque(_, uses) => uses * e != {}
    case Call(_, Indirect(p), args) => p in e || exists j :: 0 <= j < |args| && args[j].Some? && args[j].value in e
    case Call(_, Direct(g), args) => CallKeeps(m, g, args, e, n)
    case _ => false
  }

  ghost predicate CallKeeps(m: Module, g: FuncName, args: seq<Option<Reg>>, e: set<Reg>, n: nat)
    decreases n, 0
  {
    if g !in m || m[g].naked then exists j :: 0 <= j < |args| && args[j].Some? && args[j].value in e
    else
      || None in Handed(m[g], args, e)
      || (n > 0 && Leaks(m, m[g], Slots(Handed(m[g], args, e)), n - 1))
  }

  /** Some run of `f` entered with derived values in `seeds` keeps one of them. */
  ghost predicate Leaks(m: Module, f: Func, seeds: set<Slot>, n: nat)
    decreases n, 3
  {
    exists path: seq<nat>, k: nat :: LeaksAt(m, f, seeds, path, k, n)
  }

  ghost predicate LeaksAt(m: Module, f: Func, seeds: set<Slot>, path: seq<nat>, k: nat, n: nat)
    decreases n, 2
  {
    IsPath(f, path) && k < |f.body| && Keeps(m, f.body[k], Derived(f, seeds, path), n)
  }

  /** No run, however deep, keeps anything. */
  ghost predicate Quiet(m: Module, f: Func, seeds: set<Slot>) {
    forall n: nat :: !Leaks(m, f, seeds, n)
  }

  // ---- Runs from more seeds, and from each seed alone --------------------------------

  lemma {:induction false} DerivedMore(f: Func, seeds: set<Slot>, seeds': set<Slot>, path: seq<nat>)
    requires IsPath(f, path) && seeds <= seeds'
    ensures Derived(f, seeds, path) <= Derived(f, seeds', path)
    decreases |path|
  {
    if path != [] { DerivedMore(f, seeds, seeds', path[..|path| - 1]); }
  }

  lemma {:induction false} KeepsMore(m: Module, i: Inst, e: set<Reg>, e': set<Reg>, n: nat)
    requires e <= e' && Keeps(m, i, e, n)
    ensures Keeps(m, i, e', n)
    decreases n, 0
  {
    if i.Call? && i.callee.Direct? && i.callee.name in m && !m[i.callee.name].naked {
      var g := m[i.callee.name];
      assert Handed(g, i.args, e) <= Handed(g, i.args, e');
      if None !in Handed(g, i.args, e) {
        LeaksMore(m, g, Slots(Handed(g, i.args, e)), Slots(Handed(g, i.args, e')), n - 1);
      }
    }
  }

  lemma {:induction false} LeaksMore(m: Module, f: Func, seeds: set<Slot>, seeds': set<Slot>, n: nat)
    requires seeds <= seeds' && Leaks(m, f, seeds, n)
    ensures Leaks(m, f, seeds', n)
    decreases n, 1
  {
    var path: seq<nat>, k: nat :| LeaksAt(m, f, seeds, path, k, n);
    DerivedMore(f, seeds, seeds', path);
    KeepsMore(m, f.body[k], Derived(f, seeds, path), Derived(f, seeds', path), n);
    assert LeaksAt(m, f, seeds', path, k, n);
  }

  /** A register derived from several seeds is derived from one of them. */
  lemma {:induction false} DerivedFromOne(f: Func, seeds: set<Slot>, path: seq<nat>, r: Reg) returns (s: Slot)
    requires IsPath(f, path) && r in Derived(f, seeds, path)
    ensures s in seeds && r in Derived(f, {s}, path)
    decreases |path|
  {
    if path == [] {
      var i :| 0 <= i < |f.params| && Param(i) in seeds && f.params[i] == r;
      s := Param(i);
    } else {
      var before := path[..|path| - 1];
      var i := f.body[path[|path| - 1]];
      if i.VaArg? && i.dst == r {
        s := VaTail;
      } else if i.Derive? && i.dst == r {
        var x :| x in i.srcs && x in Derived(f, seeds, before);
        s := DerivedFromOne(f, seeds, before, x);
        assert x in i.srcs * Derived(f, {s}, before);
      } else {
        s := DerivedFromOne(f, seeds, before, r);
      }
    }
  }

  /** What keeps one of many derived registers keeps it when it alone is derived: leaking
      distributes over the seeds. */
  lemma {:induction false} LeaksFromOne(m: Module, f: Func, seeds: set<Slot>, n: nat) returns (s: Slot)
    requires Leaks(m, f, seeds, n)
    ensures s in seeds && Leaks(m, f, {s}, n)
    decreases n, 2
  {
    var path: seq<nat>, k: nat :| LeaksAt(m, f, seeds, path, k, n);
    var r := KeptOne(m, f.body[k], Derived(f, seeds, path), n);
    s := DerivedFromOne(f, seeds, path, r);
    KeepsMore(m, f.body[k], {r}, Derived(f, {s}, path), n);
    assert LeaksAt(m, f, {s}, path, k, n);
  }

  lemma {:induction false} KeptOne(m: Module, i: Inst, e: set<Reg>, n: nat) returns (r: Reg)
    requires Keeps(m, i, e, n)
    ensures r in e && Keeps(m, i, {r}, n)
    decreases n, 1
  {
    match i
    case Store(Some(v)) => r := v;
    case Ret(Some(v)) => r := v;
    case Opaque(_, uses) =>
      r :| r in uses * e;
      assert r in uses * {r};
    case Call(_, Indirect(p), args) =>
      if p in e {
        r := p;
      } else {
        var j :| 0 <= j < |args| && args[j].Some? && args[j].value in e;
        r := args[j].value;
      }
    case Call(_, Direct(g), args) =>
      r := CallKeptOne(m, g, args, e, n);
  }

  lemma {:induction false} CallKeptOne(m: Module, g: FuncName, args: seq<Option<Reg>>, e: set<Reg>,
                                       n: nat) returns (r: Reg)
    requires CallKeeps(m, g, args, e, n)
    ensures r in e && CallKeeps(m, g, args, {r}, n)
    decreases n, 0
  {
    if g !in m || m[g].naked {
      var j :| 0 <= j < |args| && args[j].Some? && args[j].value in e;
      r := args[j].value;
    } else if None in Handed(m[g], args, e) {
      var j :| 0 <= j < |args| && args[j].Some? && args[j].value in e && SlotOf(m[g], j) == None;
      r := args[j].value;
      assert SlotOf(m[g], j) in Handed(m[g], args, {r});
    } else {
      var s := LeaksFromOne(m, m[g], Slots(Handed(m[g], args, e)), n - 1);
      var j :| 0 <= j < |args| && args[j].Some? && args[j].value in e && SlotOf(m[g], j) == Some(s);
      r := args[j].value;
      assert SlotOf(m[g], j) in Handed(m[g], args, {r});
      LeaksMore(m, m[g], {s}, Slots(Handed(m[g], args, {r})), n - 1);
    }
  }

  // ---- The tainted set ---------------------------------------------------------------

  /** `t` holds the seed's registers and all that is derived from them. */
  ghost predicate Closed(f: Func, slot: Slot, t: set<Reg>) {
    && Entry(f, {slot}) <= t
    && forall k :: 0 <= k < |f.body| ==> ClosedAt(f.body[k], slot, t)
  }

  predicate ClosedAt(i: Inst, slot: Slot, t: set<Reg>) {
    && (i.VaArg? && slot == VaTail ==> i.dst in t)
    && (i.Derive? && i.srcs * t != {} ==> i.dst in t)
  }

  lemma {:induction false} ClosedDerived(f: Func, slot: Slot, t: set<Reg>, path: seq<nat>)
    requires Closed(f, slot, t) && IsPath(f, path)
    ensures Derived(f, {slot}, path) <= t
    decreases |path|
  {
    if path != [] {
      var before := path[..|path| - 1];
      ClosedDerived(f, slot, t, before);
      var k := path[|path| - 1];
      assert ClosedAt(f.body[k], slot, t);
      assert f.body[k].Derive? && f.body[k].srcs * Derived(f, {slot}, before) != {} ==> f.body[k].srcs * t != {} by {
        Meets(if f.body[k].Derive? then f.body[k].srcs else {}, Derived(f, {slot}, before), t);
      }
    }
  }

  lemma Meets(a: set<Reg>, b: set<Reg>, c: set<Reg>)
    requires b <= c
    ensures a * b != {} ==> a * c != {}
  {
    if a * b != {} {
      var x :| x in a * b;
      assert x in a * c;
    }
  }

  /** Some run derives `r` from the slot. */
  ghost predicate Reached(f: Func, slot: Slot, r: Reg) {
    exists path: seq<nat> :: ReachedBy(f, slot, r, path)
  }

  ghost predicate ReachedBy(f: Func, slot: Slot, r: Reg, path: seq<nat>) {
    IsPath(f, path) && r in Derived(f, {slot}, path)
  }

  lemma ReachedNext(f: Func, slot: Slot, k: nat)
    requires k < |f.body|
    requires var i := f.body[k]; (i.VaArg? && slot == VaTail)
                                 || (i.Derive? && exists x :: x in i.srcs && Reached(f, slot, x))
    ensures Reached(f, slot, f.body[k].dst)
  {
    var i := f.body[k];
    var path: seq<nat> := [];
    if i.Derive? {
      var x :| x in i.srcs && Reached(f, slot, x);
      path :| ReachedBy(f, slot, x, path);
      assert x in i.srcs * Derived(f, {slot}, path);
    }
    var path' := path + [k];
    assert path'[..|path|] == path;
    assert ReachedBy(f, slot, i.dst, path');
  }

  /** What is said of a (function, slot) by a verdict: `false` is always safe; on a call graph
      without cycles `true` is never idle. */
  ghost predicate Verdict(m: Module, rank: map<FuncName, nat>, g: FuncName, slot: Slot, keeps: bool)
    requires g in m
  {
    && (!keeps ==> Quiet(m, m[g], {slot}))
    && (keeps && Acyclic(m, rank) ==> Loud(m, m[g], slot))
  }

  /** Some run keeps a value handed in `slot`. */
  ghost predicate Loud(m: Module, f: Func, slot: Slot) {
    exists n: nat :: Leaks(m, f, {slot}, n)
  }

  /** Direct calls of defined functions go down in rank: no recursion. */
  ghost predicate Acyclic(m: Module, rank: map<FuncName, nat>) {
    && (forall g :: g in m ==> g in rank)
    && forall g, k: nat :: g in m && k < |m[g].body| ==> CallsDown(m, rank, g, m[g].body[k])
  }

  ghost predicate CallsDown(m: Module, rank: map<FuncName, nat>, g: FuncName, i: Inst) {
    i.Call? && i.callee.Direct? && i.callee.name in m && i.callee.name in rank && g in rank
    ==> rank[i.callee.name] < rank[g]
  }

  ghost function Keys(m: Module): set<(FuncName, Slot)> {
    set g, s | g in m && s in SlotsOf(m[g]) :: (g, s)
  }

  ghost function SlotsOf(f: Func): set<Slot> {
    (set i | 0 <= i < |f.params| :: Param(i)) + {VaTail}
  }

  /** Use `i` keeps nothing of `t`, however deep. */
  ghost predicate UseSafe(m: Module, i: Inst, t: set<Reg>) {
    forall n: nat :: !Keeps(m, i, t, n)
  }

  /** Use `i` keeps some one register of `t`. */
  ghost predicate UseKept(m: Module, i: Inst, t: set<Reg>) {
    exists r: Reg, n: nat :: r in t && Keeps(m, i, {r}, n)
  }

  ghost predicate CallKept(m: Module, callee: Callee, args: seq<Option<Reg>>, t: set<Reg>) {
    UseKept(m, Call(None, callee, args), t)
  }

  /** What `CallRetains` answers about argument `j` of a call of `callee`. */
  ghost predicate ArgSays(m: Module, rank: map<FuncName, nat>, callee: Callee, j: nat, keeps: bool) {
    match callee
    case Indirect(_) => keeps
    case Direct(g) =>
      if g !in m || m[g].naked || SlotOf(m[g], j).None? then keeps
      else Verdict(m, rank, g, SlotOf(m[g], j).value, keeps)
  }

  lemma CallIsKept(m: Module, i: Inst, t: set<Reg>)
    requires i.Call? && CallKept(m, i.callee, i.args, t)
    ensures UseKept(m, i, t)
  {
    var r: Reg, n: nat :| r in t && Keeps(m, Call(None, i.callee, i.args), {r}, n);
    assert Keeps(m, i, {r}, n);
  }

  lemma ArgKept(m: Module, rank: map<FuncName, nat>, callee: Callee, args: seq<Option<Reg>>, t: set<Reg>, j: nat)
    requires j < |args| && args[j].Some? && args[j].value in t && ArgSays(m, rank, callee, j, true) && Acyclic(m, rank)
    ensures CallKept(m, callee, args, t)
  {
    hide Acyclic, Leaks;
    var r := args[j].value;
    if callee.Direct? && callee.name in m && !m[callee.name].naked {
      var g := m[callee.name];
      assert SlotOf(g, j) in Handed(g, args, {r});
      if SlotOf(g, j).Some? {
        var s := SlotOf(g, j).value;
        assert Loud(m, g, s);
        var n: nat :| Leaks(m, g, {s}, n);
        LeaksMore(m, g, {s}, Slots(Handed(g, args, {r})), n);
        assert CallKeeps(m, callee.name, args, {r}, n + 1);
        assert Keeps(m, Call(None, callee, args), {r}, n + 1);
      } else {
        assert Keeps(m, Call(None, callee, args), {r}, 0);
      }
    } else {
      assert Keeps(m, Call(None, callee, args), {r}, 0);
    }
  }

  lemma ArgsSafe(m: Module, rank: map<FuncName, nat>, i: Inst, t: set<Reg>)
    requires i.Call? && (i.callee.Indirect? ==> i.callee.ptr !in t)
    requires forall c :: 0 <= c < |i.args| && i.args[c].Some? && i.args[c].value in t ==>
      ArgSays(m, rank, i.callee, c, false)
    ensures UseSafe(m, i, t)
  {
    hide Leaks;
    if i.callee.Direct? && i.callee.name in m && !m[i.callee.name].naked {
      var g := m[i.callee.name];
      var seeds := Slots(Handed(g, i.args, t));
      forall s <- seeds ensures Quiet(m, g, {s}) {
        var c :| 0 <= c < |i.args| && i.args[c].Some? && i.args[c].value in t && SlotOf(g, c) == Some(s);
        assert ArgSays(m, rank, i.callee, c, false);
      }
      QuietAll(m, g, seeds);
      assert None !in Handed(g, i.args, t);
      forall n: nat ensures !Keeps(m, i, t, n) {
        assert n > 0 ==> !Leaks(m, g, seeds, n - 1);
      }
    } else {
      NoArgKept(m, rank, i, t);
    }
  }

  lemma NoArgKept(m: Module, rank: map<FuncName, nat>, i: Inst, t: set<Reg>)
    requires i.Call? && (i.callee.Indirect? ==> i.callee.ptr !in t)
    requires i.callee.Direct? ==> i.callee.name !in m || m[i.callee.name].naked
    requires forall c :: 0 <= c < |i.args| && i.args[c].Some? && i.args[c].value in t ==>
      ArgSays(m, rank, i.callee, c, false)
    ensures UseSafe(m, i, t)
  {
    forall n: nat ensures !Keeps(m, i, t, n) { }
  }

  /** What is quiet from each slot alone is quiet from all of them together. */
  lemma QuietAll(m: Module, f: Func, seeds: set<Slot>)
    requires forall s <- seeds :: Quiet(m, f, {s})
    ensures Quiet(m, f, seeds)
  {
    hide Leaks;
    forall n: nat ensures !Leaks(m, f, seeds, n) {
      if Leaks(m, f, seeds, n) {
        var s := LeaksFromOne(m, f, seeds, n);
        assert false;
      }
    }
  }

  /** A store, a return or an opaque use of a tainted register, or a call through one. */
  lemma UseIsKept(m: Module, i: Inst, t: set<Reg>)
    requires match i
             case Store(Some(v)) => v in t
             case Ret(Some(v)) => v in t
             case Opaque(_, uses) => uses * t != {}
             case Call(_, Indirect(p), _) => p in t
             case _ => false
    ensures UseKept(m, i, t)
  {
    if i.Opaque? {
      var r :| r in i.uses * t;
      assert r in i.uses * {r};
      assert Keeps(m, i, {r}, 0);
    } else if i.Call? {
      assert Keeps(m, i, {i.callee.ptr}, 0);
    } else {
      assert Keeps(m, i, {i.val.value}, 0);
    }
  }

  lemma KeptLeaks(m: Module, f: Func, slot: Slot, t: set<Reg>, k: nat)
    requires k < |f.body| && UseKept(m, f.body[k], t) && forall r <- t :: Reached(f, slot, r)
    ensures Loud(m, f, slot)
  {
    hide Keeps, Leaks;
    var r: Reg, n: nat :| r in t && Keeps(m, f.body[k], {r}, n);
    assert Reached(f, slot, r);
    var path: seq<nat> :| ReachedBy(f, slot, r, path);
    KeepsMore(m, f.body[k], {r}, Derived(f, {slot}, path), n);
    LeakIs(m, f, {slot}, path, k, n);
  }

  lemma LeakPath(m: Module, f: Func, seeds: set<Slot>, n: nat) returns (path: seq<nat>, k: nat)
    requires Leaks(m, f, seeds, n)
    ensures LeaksAt(m, f, seeds, path, k, n)
  {
    path, k :| LeaksAt(m, f, seeds, path, k, n);
  }

  lemma LeakIs(m: Module, f: Func, seeds: set<Slot>, path: seq<nat>, k: nat, n: nat)
    requires LeaksAt(m, f, seeds, path, k, n)
    ensures Leaks(m, f, seeds, n)
  {
  }

  lemma SafeIsQuiet(m: Module, f: Func, slot: Slot, t: set<Reg>)
    requires Closed(f, slot, t) && forall c :: 0 <= c < |f.body| ==> UseSafe(m, f.body[c], t)
    ensures Quiet(m, f, {slot})
  {
    hide Keeps;
    forall n: nat ensures !Leaks(m, f, {slot}, n) {
      if Leaks(m, f, {slot}, n) {
        var path, k := LeakPath(m, f, {slot}, n);
        SafePath(m, f, slot, t, path, k, n);
        assert false;
      }
    }
  }

  lemma SafePath(m: Module, f: Func, slot: Slot, t: set<Reg>, path: seq<nat>, k: nat, n: nat)
    requires Closed(f, slot, t) && forall c :: 0 <= c < |f.body| ==> UseSafe(m, f.body[c], t)
    ensures !LeaksAt(m, f, {slot}, path, k, n)
  {
    hide Keeps;
    if IsPath(f, path) && k < |f.body| {
      ClosedDerived(f, slot, t, path);
      assert UseSafe(m, f.body[k], t);
      if Keeps(m, f.body[k], Derived(f, {slot}, path), n) {
        KeepsMore(m, f.body[k], Derived(f, {slot}, path), t, n);
      }
    }
  }

  lemma NothingTainted(m: Module, f: Func, slot: Slot)
    requires Closed(f, slot, {})
    ensures Quiet(m, f, {slot})
  {
    hide Closed;
    forall c | 0 <= c < |f.body| ensures UseSafe(m, f.body[c], {}) {
      NothingKept(m, f.body[c]);
    }
    SafeIsQuiet(m, f, slot, {});
  }

  lemma NothingKept(m: Module, i: Inst)
    ensures UseSafe(m, i, {})
  {
    forall n: nat ensures !Keeps(m, i, {}, n) {
      if Keeps(m, i, {}, n) {
        var r := KeptOne(m, i, {}, n);
        assert false;
      }
    }
  }

  ghost function Targets(f: Func, k: nat): set<Reg>
    requires k <= |f.body|
  {
    if k == 0 then {}
    else Targets(f, k - 1) + match f.body[k - 1] case Derive(d, _) => {d} case VaArg(d) => {d} case _ => {}
  }

  lemma {:induction false} TargetIn(f: Func, c: nat, k: nat)
    requires c < k <= |f.body| && (f.body[c].Derive? || f.body[c].VaArg?)
    ensures f.body[c].dst in Targets(f, k)
    decreases k - c
  {
    if c < k - 1 { TargetIn(f, c, k - 1); }
  }

  /** The least set holding the slot's registers and closed under derivation. */
  method Taint(f: Func, slot: Slot) returns (tainted: set<Reg>)
    requires slot in SlotsOf(f)
    ensures Closed(f, slot, tainted) && forall r <- tainted :: Reached(f, slot, r)
  {
    hide Reached, Targets;
    tainted := {};
    ghost var all := Targets(f, |f.body|) + Entry(f, {slot});
    if slot == VaTail {
      for k := 0 to |f.body|
        invariant tainted <= all && forall r <- tainted :: Reached(f, slot, r)
        invariant forall c :: 0 <= c < k && f.body[c].VaArg? ==> f.body[c].dst in tainted
      {
        if f.body[k].VaArg? {
          ReachedNext(f, slot, k);
          TargetIn(f, k, |f.body|);
          tainted := tainted + {f.body[k].dst};
        }
      }
      assert Entry(f, {slot}) == {};
    } else {
      tainted := {f.params[slot.i]};
      EntryReached(f, slot);
    }
    var changed := true;
    while changed
      invariant tainted <= all && forall r <- tainted :: Reached(f, slot, r)
      invariant Entry(f, {slot}) <= tainted
      invariant forall c :: 0 <= c < |f.body| && f.body[c].VaArg? && slot == VaTail ==> f.body[c].dst in tainted
      invariant !changed ==> forall c :: 0 <= c < |f.body| ==> ClosedAt(f.body[c], slot, tainted)
      decreases all - tainted, changed
    {
      changed := false;
      ghost var before := tainted;
      for k := 0 to |f.body|
        invariant before <= tainted <= all && forall r <- tainted :: Reached(f, slot, r)
        invariant changed ==> before < tainted
        invariant !changed ==> before == tainted && forall c :: 0 <= c < k ==> ClosedAt(f.body[c], slot, tainted)
      {
        var i := f.body[k];
        if i.Derive? && i.srcs * tainted != {} && i.dst !in tainted {
          ghost var x :| x in i.srcs * tainted;
          ReachedNext(f, slot, k);
          TargetIn(f, k, |f.body|);
          tainted := tainted + {i.dst};
          changed := true;
        }
      }
    }
  }

  lemma EntryReached(f: Func, slot: Slot)
    requires slot.Param? && slot.i < |f.params|
    ensures Entry(f, {slot}) == {f.params[slot.i]} && Reached(f, slot, f.params[slot.i])
  {
    var path: seq<nat> := [];
    assert ReachedBy(f, slot, f.params[slot.i], path);
  }

  // ---- The walk ----------------------------------------------------------------------

  class Walker {
    const m: Module
    ghost const rank: map<FuncName, nat>
    var memo: map<(FuncName, Slot), bool>
    var visiting: set<(FuncName, Slot)>

    constructor (m: Module, ghost rank: map<FuncName, nat>)
      ensures Valid() && this.m == m && this.rank == rank && visiting == {}
    {
      this.m := m;
      this.rank := rank;
      memo := map[];
      visiting := {};
    }

    ghost predicate Valid()
      reads this
    {
      && (forall k :: k in memo ==> k.0 in m && Verdict(m, rank, k.0, k.1, memo[k]))
      && visiting <= Keys(m)
    }

    /** The functions being walked are above `g`. */
    ghost predicate Above(g: FuncName)
      reads this
    {
      Acyclic(m, rank) && g in m ==> forall k :: k in visiting ==> k.0 in rank && rank[g] < rank[k.0]
    }

    /** Whether argument `j` of a call may stay reachable after it returns. */
    method CallRetains(callee: Callee, j: nat) returns (keeps: bool)
      requires Valid() && (callee.Direct? ==> Above(callee.name))
      modifies this
      ensures Valid() && visiting == old(visiting) && ArgSays(m, rank, callee, j, keeps)
      decreases Keys(m) - visiting, 1
    {
      match callee
      case Indirect(_) => keeps := true;
      case Direct(g) =>
        if g in m {
          keeps := ArgRetains(g, j);
        } else {
          keeps := true;
        }
    }

    method ArgRetains(g: FuncName, j: nat) returns (keeps: bool)
      requires Valid() && Above(g) && g in m
      modifies this
      ensures Valid() && visiting == old(visiting) && ArgSays(m, rank, Direct(g), j, keeps)
      decreases Keys(m) - visiting, 0
    {
      var f := m[g];
      if f.naked { return true; }
      var slot := SlotOf(f, j);
      if slot.None? { return true; }
      var key := (g, slot.value);
      if key in memo { return memo[key]; }
      if key in visiting {
        assert !Acyclic(m, rank);
        return true;
      }
      assert slot.value in SlotsOf(f) && key in Keys(m);
      var before := visiting;
      visiting := visiting + {key};
      keeps := Walk(g, slot.value);
      visiting := visiting - {key};
      assert visiting == before;
      memo := memo[key := keeps];
    }

    /** Taint the slot's value through derived values, then look for a use that keeps one. */
    method Walk(g: FuncName, slot: Slot) returns (keeps: bool)
      requires Valid() && g in m && !m[g].naked && slot in SlotsOf(m[g])
      requires Acyclic(m, rank) ==> forall k :: k in visiting ==> k.0 in rank && rank[g] <= rank[k.0]
      modifies this
      ensures Valid() && visiting == old(visiting) && Verdict(m, rank, g, slot, keeps)
      decreases Keys(m) - visiting, 2
    {
      var f := m[g];
      var tainted := Taint(f, slot);
      if tainted == {} {
        NothingTainted(m, f, slot);
        return false;
      }
      var k := 0;
      while k < |f.body|
        invariant k <= |f.body| && Valid() && visiting == old(visiting)
        invariant forall c :: 0 <= c < k ==> UseSafe(m, f.body[c], tainted)
      {
        var kept := UseKeeps(g, slot, k, tainted);
        if kept {
          if Acyclic(m, rank) { KeptLeaks(m, f, slot, tainted, k); }
          return true;
        }
        k := k + 1;
      }
      SafeIsQuiet(m, f, slot, tainted);
      return false;
    }

    /** Whether use `k` keeps something of the tainted set. */
    method UseKeeps(g: FuncName, slot: Slot, k: nat, tainted: set<Reg>) returns (kept: bool)
      requires Valid() && g in m && k < |m[g].body|
      requires Acyclic(m, rank) ==> forall v :: v in visiting ==> v.0 in rank && rank[g] <= rank[v.0]
      modifies this
      ensures Valid() && visiting == old(visiting)
      ensures !kept ==> UseSafe(m, m[g].body[k], tainted)
      ensures kept && Acyclic(m, rank) ==> UseKept(m, m[g].body[k], tainted)
      decreases Keys(m) - visiting, 2, 0
    {
      var i := m[g].body[k];
      kept := false;
      match i {
        case Store(Some(v)) => kept := v in tainted;
        case Ret(Some(v)) => kept := v in tainted;
        case Opaque(_, uses) => kept := uses * tainted != {};
        case Call(_, callee, args) =>
          assert Acyclic(m, rank) ==> CallsDown(m, rank, g, i);
          kept := callee.Indirect? && callee.ptr in tainted;
          if kept { UseIsKept(m, Call(None, callee, args), tainted); }
          var j := 0;
          while j < |args| && !kept
            invariant j <= |args| && Valid() && visiting == old(visiting)
            invariant !kept ==> (callee.Indirect? ==> callee.ptr !in tainted)
            invariant !kept ==>
              forall c :: 0 <= c < j && args[c].Some? && args[c].value in tainted ==> ArgSays(m, rank, callee, c, false)
            invariant kept && Acyclic(m, rank) ==> CallKept(m, callee, args, tainted)
            decreases |args| - j, !kept
          {
            if args[j].Some? && args[j].value in tainted {
              kept := CallRetains(callee, j);
              if kept && Acyclic(m, rank) { ArgKept(m, rank, callee, args, tainted, j); }
            }
            j := j + 1;
          }
          if !kept { ArgsSafe(m, rank, i, tainted); }
        case _ =>
      }
      if kept && Acyclic(m, rank) {
        if i.Call? { CallIsKept(m, i, tainted); } else { UseIsKept(m, i, tainted); }
      }
    }
  }
}
