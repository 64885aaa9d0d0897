/** Relaxation keeps the program's meaning: run by any machine, the relaxed stream passes the
    same source labels with the same data as the original, step for step or two for one. */
module RelaxMeaning {
  import opened Wrappers
  import opened Stream
  import opened Relax

  // ---- Running a stream --------------------------------------------------------------

  /** What a machine does with its data: run an instruction, test a flag, decide a skip. */
  datatype Machine<!D> = Machine(exec: (nat, D) -> D, test: (Flag, D) -> bool, skips: (nat, D) -> bool)

  datatype State<D> = State(pc: nat, stack: seq<nat>, data: D)

  /** The label line a jump to `n` goes to. */
  function LabelOf(ls: seq<Line>, n: Name): (r: Option<nat>)
    ensures r.Some? ==> r.value < |ls|
  {
    match Definer(ls, n)
    case Some(k) => if ls[k].Label? then Some(k) else None
    case None => None
  }

  predicate IsJump(l: Line) {
    IsRelative(l) || l.Goto? || l.Call?
  }

  /** The first line at or after `k` that takes room. */
  function NextInstr(ls: seq<Line>, k: nat): (r: nat)
    requires k <= |ls|
    ensures k <= r <= |ls|
    decreases |ls| - k
  {
    if k < |ls| && (ls[k].Label? || ls[k].Equ? || ls[k].Org?) then NextInstr(ls, k + 1) else k
  }

  function Jump<D>(ls: seq<Line>, x: Name, stack: seq<nat>, data: D): Option<State<D>> {
    match LabelOf(ls, x)
    case Some(p) => Some(State(p, stack, data))
    case None => None
  }

  /** One line; `None` when the run stops: past the end, a return with nothing to return to,
      data bytes, or a jump to no label. */
  function Step<D>(m: Machine<D>, ls: seq<Line>, s: State<D>): Option<State<D>> {
    if s.pc >= |ls| then None
    else
      match ls[s.pc]
      case Label(_) => Some(s.(pc := s.pc + 1))
      case Equ(_, _) => Some(s.(pc := s.pc + 1))
      case Org(_) => Some(s.(pc := s.pc + 1))
      case Db(_) => None
      case CondBranch(c, x) =>
        if m.test(c.flag, s.data) == c.want then Jump(ls, x, s.stack, s.data) else Some(s.(pc := s.pc + 1))
      case Bra(x) => Jump(ls, x, s.stack, s.data)
      case Goto(x) => Jump(ls, x, s.stack, s.data)
      case Rcall(x) => Jump(ls, x, s.stack + [s.pc + 1], s.data)
      case Call(x) => Jump(ls, x, s.stack + [s.pc + 1], s.data)
      case Return =>
        if s.stack == [] then None else Some(State(s.stack[|s.stack| - 1], s.stack[..|s.stack| - 1], s.data))
      case Skip(op) =>
        Some(State(if m.skips(op, s.data) then NextInstr(ls, s.pc + 1) + 1 else s.pc + 1, s.stack, m.exec(op, s.data)))
      case Other(op, _) => Some(State(s.pc + 1, s.stack, m.exec(op, s.data)))
  }

  function Run<D>(m: Machine<D>, ls: seq<Line>, s: State<D>, n: nat): State<D>
    decreases n
  {
    if n == 0 || Step(m, ls, s).None? then s else Run(m, ls, Step(m, ls, s).value, n - 1)
  }

  /** The source label passed in state `s`, with the data it is passed with. */
  function Emits<D>(ls: seq<Line>, s: State<D>): seq<(string, D)> {
    if s.pc < |ls| && ls[s.pc].Label? && ls[s.pc].name.User? then [(ls[s.pc].name.text, s.data)] else []
  }

  function Trace<D>(m: Machine<D>, ls: seq<Line>, s: State<D>, n: nat): seq<(string, D)>
    decreases n
  {
    if n == 0 || Step(m, ls, s).None? then [] else Emits(ls, s) + Trace(m, ls, Step(m, ls, s).value, n - 1)
  }

  /** What `n` steps show: the labels passed, the data, and whether the run has stopped. */
  datatype Seen<D> = Seen(labels: seq<(string, D)>, data: D, stopped: bool)

  function Observe<D>(m: Machine<D>, ls: seq<Line>, s: State<D>, n: nat): Seen<D> {
    var e := Run(m, ls, s, n);
    Seen(Trace(m, ls, s, n), e.data, Step(m, ls, e).None?)
  }

  ghost predicate Shows<D(!new)>(m: Machine<D>, ls: seq<Line>, s: State<D>, o: Seen<D>) {
    exists n: nat :: Observe(m, ls, s, n) == o
  }

  /** Each of the two runs shows all that the other shows. */
  ghost predicate SameBehaviour<D(!new)>(m: Machine<D>, a: seq<Line>, sa: State<D>, b: seq<Line>, sb: State<D>) {
    && (forall n: nat :: Shows(m, b, sb, Observe(m, a, sa, n)))
    && (forall n: nat :: Shows(m, a, sa, Observe(m, b, sb, n)))
  }

  /** Runs start at the top or at a source label. */
  function Start<D>(ls: seq<Line>, at: Option<string>, d: D): State<D>
    requires at.Some? ==> LabelOf(ls, User(at.value)).Some?
  {
    State(match at case Some(x) => LabelOf(ls, User(x)).value case None => 0, [], d)
  }

  // ---- Programs the claim is for -----------------------------------------------------

  /** Every jump names a label. */
  ghost predicate JumpsLabelled(ls: seq<Line>) {
    forall k: nat :: k < |ls| && IsJump(ls[k]) ==> LabelOf(ls, ls[k].target).Some?
  }

  /** No skip guards a conditional branch. */
  ghost predicate NoBranchUnderSkip(ls: seq<Line>) {
    forall k: nat :: k < |ls| && ls[k].Skip? ==> Unguarded(ls, k)
  }

  predicate Unguarded(ls: seq<Line>, k: nat)
    requires k < |ls|
  {
    var j := NextInstr(ls, k + 1);
    j < |ls| ==> !ls[j].CondBranch?
  }

  // ---- One expansion: where lines went -----------------------------------------------

  /** The line that `k` becomes when line `li` grows to `n` lines. */
  function Moved(li: nat, n: nat, k: nat): nat
    requires n > 0
  {
    if k <= li then k else k + n - 1
  }

  lemma {:induction false} DefinerMoved(a: seq<Line>, li: nat, serial: nat, x: Name, k: nat)
    requires li < |a| && IsRelative(a[li]) && x != FarSkip(serial) && k <= |a|
    ensures var e := Expand(a, li, serial); var n := |LongForm(a[li], serial)|;
            DefinerFrom(e, x, Moved(li, n, k))
            == (match DefinerFrom(a, x, k) case Some(p) => Some(Moved(li, n, p)) case None => None)
    decreases |a| - k
  {
    hide Expand, LongForm, IsRelative;
    var n := |LongForm(a[li], serial)|;
    if k < |a| {
      DefinerMoved(a, li, serial, x, k + 1);
      if k == li {
        DefinerPast(a, li, serial, x);
        BranchDefinesNothing(a[li]);
      } else {
        ExpandAt(a, li, serial, Moved(li, n, k));
      }
    }
  }

  lemma BranchDefinesNothing(l: Line)
    requires IsRelative(l)
    ensures !Defines(l)
  {
  }

  /** The long form defines nothing but the made-up label. */
  lemma DefinerPast(a: seq<Line>, li: nat, serial: nat, x: Name)
    requires li < |a| && IsRelative(a[li]) && x != FarSkip(serial)
    ensures var e := Expand(a, li, serial); var n := |LongForm(a[li], serial)|;
            DefinerFrom(e, x, li) == DefinerFrom(e, x, li + n)
  {
    hide Expand;
    var e, n := Expand(a, li, serial), |LongForm(a[li], serial)|;
    ExpandAt(a, li, serial, li);
    if n == 3 {
      ExpandAt(a, li, serial, li + 1);
      ExpandAt(a, li, serial, li + 2);
      assert DefinerFrom(e, x, li + 2) == DefinerFrom(e, x, li + 3);
      assert DefinerFrom(e, x, li + 1) == DefinerFrom(e, x, li + 2);
    }
  }

  lemma LabelMoved(a: seq<Line>, li: nat, serial: nat, x: Name)
    requires li < |a| && IsRelative(a[li]) && x != FarSkip(serial)
    ensures var e := Expand(a, li, serial); var n := |LongForm(a[li], serial)|;
            LabelOf(e, x) == (match LabelOf(a, x) case Some(p) => Some(Moved(li, n, p)) case None => None)
  {
    hide Expand;
    DefinerMoved(a, li, serial, x, 0);
    if Base(x).Some? { DefinerMoved(a, li, serial, Base(x).value, 0); }
    var d := Definer(a, x);
    if d.Some? {
      ExpandAt(a, li, serial, Moved(li, |LongForm(a[li], serial)|, d.value));
    }
  }

  /** The made-up label is found where it was put. */
  lemma SkipLabelAt(a: seq<Line>, li: nat, serial: nat)
    requires Tidy(a, serial) && li < |a| && a[li].CondBranch?
    ensures LabelOf(Expand(a, li, serial), FarSkip(serial)) == Some(li + 2)
  {
    hide Expand, SkipPlaced, SkipsUnique;
    var e := Expand(a, li, serial);
    ExpandAt(a, li, serial, li + 2);
    forall q: nat | q < li + 2 ensures !(Defines(e[q]) && e[q].name == FarSkip(serial)) {
      ExpandAt(a, li, serial, q);
      assert q < li ==> NamesBelow(a[q], serial);
    }
    DefinerAt(e, FarSkip(serial), 0, li + 2);
  }

  lemma {:induction false} DefinerAt(ls: seq<Line>, x: Name, k: nat, p: nat)
    requires k <= p < |ls| && Defines(ls[p]) && ls[p].name == x
    requires forall q: nat :: k <= q < p ==> !(Defines(ls[q]) && ls[q].name == x)
    ensures DefinerFrom(ls, x, k) == Some(p)
    decreases p - k
  {
    if k < p { DefinerAt(ls, x, k + 1, p); }
  }

  lemma {:induction false} NextMoved(a: seq<Line>, li: nat, serial: nat, k: nat)
    requires li < |a| && IsRelative(a[li]) && k <= |a|
    ensures var e := Expand(a, li, serial); var n := |LongForm(a[li], serial)|;
            NextInstr(e, Moved(li, n, k)) == Moved(li, n, NextInstr(a, k))
    decreases |a| - k
  {
    hide Expand;
    var n := |LongForm(a[li], serial)|;
    if k < |a| {
      ExpandAt(a, li, serial, Moved(li, n, k));
      NextMoved(a, li, serial, k + 1);
    }
  }

  function MovedStack(li: nat, n: nat, stack: seq<nat>): seq<nat>
    requires n > 0
  {
    seq(|stack|, c requires 0 <= c < |stack| => Moved(li, n, stack[c]))
  }

  function MovedState<D>(li: nat, n: nat, s: State<D>): (r: State<D>)
    requires n > 0
    ensures r.data == s.data
  {
    State(Moved(li, n, s.pc), MovedStack(li, n, s.stack), s.data)
  }

  // ---- One expansion: every step is matched ------------------------------------------

  ghost predicate Expandable(a: seq<Line>, li: nat, serial: nat) {
    && li < |a| && IsRelative(a[li]) && a[li].target.User? && Tidy(a, serial)
    && JumpsLabelled(a) && NoBranchUnderSkip(a)
  }

  lemma TargetBelow(a: seq<Line>, li: nat, serial: nat, k: nat)
    requires Expandable(a, li, serial) && k < |a| && IsJump(a[k])
    ensures a[k].target != FarSkip(serial) && LabelOf(a, a[k].target).Some?
  {
    hide SkipPlaced, SkipsUnique;
    assert NamesBelow(a[k], serial);
  }

  lemma JumpMoved<D>(a: seq<Line>, li: nat, serial: nat, x: Name, stack: seq<nat>, data: D)
    requires li < |a| && IsRelative(a[li]) && x != FarSkip(serial) && LabelOf(a, x).Some?
    ensures var e := Expand(a, li, serial); var n := |LongForm(a[li], serial)|;
            Jump(e, x, MovedStack(li, n, stack), data) == Some(MovedState(li, n, Jump(a, x, stack, data).value))
  {
    LabelMoved(a, li, serial, x);
  }

  lemma PushMoved(li: nat, n: nat, stack: seq<nat>, r: nat)
    requires n > 0
    ensures MovedStack(li, n, stack + [r]) == MovedStack(li, n, stack) + [Moved(li, n, r)]
  {
  }

  lemma StepJump<D>(m: Machine<D>, a: seq<Line>, li: nat, serial: nat, s: State<D>)
    requires Expandable(a, li, serial) && s.pc != li && s.pc < |a| && IsJump(a[s.pc])
    ensures var e := Expand(a, li, serial); var n := |LongForm(a[li], serial)|;
            && Step(m, a, s).Some?
            && Step(m, e, MovedState(li, n, s)) == Some(MovedState(li, n, Step(m, a, s).value))
  {
    assert li < |a| && IsRelative(a[li]);
    hide Expand, Expandable, Definer, LabelOf, LongForm, Jump;
    var n := |LongForm(a[li], serial)|;
    var l := a[s.pc];
    ExpandAt(a, li, serial, Moved(li, n, s.pc));
    TargetBelow(a, li, serial, s.pc);
    JumpMoved(a, li, serial, l.target, s.stack, s.data);
    JumpMoved(a, li, serial, l.target, s.stack + [s.pc + 1], s.data);
    PushMoved(li, n, s.stack, s.pc + 1);
    JumpTaken(a, l.target, s.stack, s.data);
    JumpTaken(a, l.target, s.stack + [s.pc + 1], s.data);
  }

  lemma JumpTaken<D>(ls: seq<Line>, x: Name, stack: seq<nat>, data: D)
    requires LabelOf(ls, x).Some?
    ensures Jump(ls, x, stack, data).Some?
  {
  }

  lemma PopMoved(li: nat, n: nat, stack: seq<nat>)
    requires n > 0 && stack != []
    ensures var top := |stack| - 1; var moved := MovedStack(li, n, stack);
            moved != [] && moved[|moved| - 1] == Moved(li, n, stack[top])
            && moved[..|moved| - 1] == MovedStack(li, n, stack[..top])
  {
  }

  /** Away from the expanded branch, both streams step alike. */
  lemma StepElsewhere<D>(m: Machine<D>, a: seq<Line>, li: nat, serial: nat, s: State<D>)
    requires Expandable(a, li, serial) && s.pc != li
    ensures var e := Expand(a, li, serial); var n := |LongForm(a[li], serial)|;
            && Step(m, e, MovedState(li, n, s))
               == (match Step(m, a, s) case Some(t) => Some(MovedState(li, n, t)) case None => None)
            && Emits(e, MovedState(li, n, s)) == Emits(a, s)
  {
    assert li < |a| && IsRelative(a[li]);
    hide Expand, Expandable, LongForm, Step, Jump, MovedStack, NextInstr;
    if s.pc < |a| {
      ExpandAt(a, li, serial, Moved(li, |LongForm(a[li], serial)|, s.pc));
      if IsJump(a[s.pc]) {
        StepJump(m, a, li, serial, s);
      } else if a[s.pc].Return? {
        StepReturn(m, a, li, serial, s);
      } else if a[s.pc].Skip? {
        StepSkip(m, a, li, serial, s);
      } else {
        StepOn(m, a, li, serial, s);
      }
    } else {
      StepOff(m, a, li, serial, s);
    }
  }

  lemma StepOff<D>(m: Machine<D>, a: seq<Line>, li: nat, serial: nat, s: State<D>)
    requires li < |a| && IsRelative(a[li]) && s.pc >= |a|
    ensures Step(m, Expand(a, li, serial), MovedState(li, |LongForm(a[li], serial)|, s)) == Step(m, a, s) == None
  {
    hide Expand, LongForm;
  }

  lemma StepOn<D>(m: Machine<D>, a: seq<Line>, li: nat, serial: nat, s: State<D>)
    requires li < |a| && IsRelative(a[li]) && s.pc != li && s.pc < |a|
    requires var l := a[s.pc]; !IsJump(l) && !l.Return? && !l.Skip?
    ensures var e := Expand(a, li, serial); var n := |LongForm(a[li], serial)|;
            Step(m, e, MovedState(li, n, s))
            == (match Step(m, a, s) case Some(t) => Some(MovedState(li, n, t)) case None => None)
  {
    hide Expand, LongForm, MovedStack;
    ExpandAt(a, li, serial, Moved(li, |LongForm(a[li], serial)|, s.pc));
  }

  lemma StepReturn<D>(m: Machine<D>, a: seq<Line>, li: nat, serial: nat, s: State<D>)
    requires li < |a| && IsRelative(a[li]) && s.pc != li && s.pc < |a| && a[s.pc].Return?
    ensures var e := Expand(a, li, serial); var n := |LongForm(a[li], serial)|;
            Step(m, e, MovedState(li, n, s))
            == (match Step(m, a, s) case Some(t) => Some(MovedState(li, n, t)) case None => None)
  {
    hide Expand, LongForm, MovedStack;
    var n := |LongForm(a[li], serial)|;
    ExpandAt(a, li, serial, Moved(li, n, s.pc));
    NoneMoved(li, n);
    if s.stack != [] { PopMoved(li, n, s.stack); }
  }

  lemma StepSkip<D>(m: Machine<D>, a: seq<Line>, li: nat, serial: nat, s: State<D>)
    requires Expandable(a, li, serial) && s.pc != li && s.pc < |a| && a[s.pc].Skip?
    ensures var e := Expand(a, li, serial); var n := |LongForm(a[li], serial)|;
            && Step(m, a, s).Some?
            && Step(m, e, MovedState(li, n, s)) == Some(MovedState(li, n, Step(m, a, s).value))
  {
    assert li < |a| && IsRelative(a[li]);
    hide Expand, Expandable, LongForm, Moved, MovedState, NextInstr, Step, IsRelative;
    LineMoved(a, li, serial, s.pc);
    SkipMoved(a, li, serial, s.pc);
    SkipMatched(m, a, Expand(a, li, serial), li, |LongForm(a[li], serial)|, s);
  }

  lemma SkipMatched<D>(m: Machine<D>, a: seq<Line>, e: seq<Line>, li: nat, n: nat, s: State<D>)
    requires n > 0 && s.pc < |a| && a[s.pc].Skip? && Moved(li, n, s.pc) < |e| && e[Moved(li, n, s.pc)] == a[s.pc]
    requires Moved(li, n, s.pc) + 1 == Moved(li, n, s.pc + 1)
    requires NextInstr(e, Moved(li, n, s.pc) + 1) + 1 == Moved(li, n, NextInstr(a, s.pc + 1) + 1)
    ensures Step(m, a, s).Some? && Step(m, e, MovedState(li, n, s)) == Some(MovedState(li, n, Step(m, a, s).value))
  {
    hide Moved, MovedStack, NextInstr, Jump;
  }

  /** Every other line is still there, past the long form if it was behind the branch. */
  lemma LineMoved(a: seq<Line>, li: nat, serial: nat, k: nat)
    requires li < |a| && IsRelative(a[li]) && k < |a| && k != li
    ensures var e := Expand(a, li, serial); var at := Moved(li, |LongForm(a[li], serial)|, k);
            at < |e| && e[at] == a[k]
  {
    hide LongForm, IsRelative;
    ExpandAt(a, li, serial, Moved(li, |LongForm(a[li], serial)|, k));
  }

  lemma NoneMoved(li: nat, n: nat)
    requires n > 0
    ensures MovedStack(li, n, []) == []
  {
  }

  /** A skip lands on the same line in both streams: it guards no expanded conditional branch. */
  lemma SkipMoved(a: seq<Line>, li: nat, serial: nat, k: nat)
    requires Expandable(a, li, serial) && k < |a| && a[k].Skip?
    ensures var e := Expand(a, li, serial); var n := |LongForm(a[li], serial)|;
            && Moved(li, n, k) + 1 == Moved(li, n, k + 1) <= |e|
            && NextInstr(e, Moved(li, n, k) + 1) + 1 == Moved(li, n, NextInstr(a, k + 1) + 1)
  {
    hide Expand, Tidy, JumpsLabelled;
    NextMoved(a, li, serial, k + 1);
    assert Unguarded(a, k);
  }

  /** At the expanded branch one step is matched by one or two. */
  lemma StepExpanded<D>(m: Machine<D>, a: seq<Line>, li: nat, serial: nat, s: State<D>) returns (c: nat)
    requires Expandable(a, li, serial) && s.pc == li
    ensures c == 1 || c == 2
    ensures Step(m, a, s).Some? && Emits(a, s) == []
    ensures var e := Expand(a, li, serial); var n := |LongForm(a[li], serial)|;
            var s' := MovedState(li, n, s); var t' := MovedState(li, n, Step(m, a, s).value);
            && Emits(e, s') == [] && Step(m, e, s').Some?
            && (c == 1 ==> Step(m, e, s') == Some(t'))
            && (c == 2 ==> var i := Step(m, e, s').value;
                           Emits(e, i) == [] && i.data == s.data && Step(m, e, i) == Some(t'))
  {
    hide Expand, Definer, LabelOf, NextInstr, JumpsLabelled, NoBranchUnderSkip, Tidy;
    var l, n := a[li], |LongForm(a[li], serial)|;
    TargetBelow(a, li, serial, li);
    ExpandAt(a, li, serial, li);
    if l.CondBranch? {
      c := 2;
      ExpandAt(a, li, serial, li + 1);
      ExpandAt(a, li, serial, li + 2);
      SkipLabelAt(a, li, serial);
      JumpMoved(a, li, serial, l.target, s.stack, s.data);
    } else {
      c := 1;
      JumpMoved(a, li, serial, l.target, s.stack, s.data);
      JumpMoved(a, li, serial, l.target, s.stack + [s.pc + 1], s.data);
      PushMoved(li, n, s.stack, s.pc + 1);
    }
  }

  /** A run of no steps, or of a stopped state. */
  lemma ObserveHere<D>(m: Machine<D>, ls: seq<Line>, s: State<D>, n: nat)
    requires n == 0 || Step(m, ls, s).None?
    ensures Observe(m, ls, s, n) == Seen([], s.data, Step(m, ls, s).None?)
  {
    hide Step;
  }

  /** One step in front of a run. */
  lemma ObserveStep<D>(m: Machine<D>, ls: seq<Line>, s: State<D>, n: nat)
    requires Step(m, ls, s).Some?
    ensures var o := Observe(m, ls, Step(m, ls, s).value, n);
            Observe(m, ls, s, n + 1) == o.(labels := Emits(ls, s) + o.labels)
  {
    hide Step, Emits;
  }

  /** `s` in stream `a` steps to `t`, and `s'` in stream `e` to `t'` in `c` steps, passing the
      same label. */
  ghost predicate Keeps<D>(m: Machine<D>, a: seq<Line>, s: State<D>, e: seq<Line>, s': State<D>, t': State<D>, c: nat) {
    && Step(m, a, s).Some? && Step(m, e, s').Some? && Emits(e, s') == Emits(a, s) && s'.data == s.data
    && (|| (c == 1 && Step(m, e, s') == Some(t'))
        || (c == 2 && Emits(a, s) == []
            && var i := Step(m, e, s').value;
               Emits(e, i) == [] && i.data == s.data && Step(m, e, i) == Some(t')))
  }

  lemma Ahead<D>(m: Machine<D>, a: seq<Line>, s: State<D>, e: seq<Line>, s': State<D>, t': State<D>, c: nat,
                 k: nat, r: nat)
    requires Keeps(m, a, s, e, s', t', c)
    requires Observe(m, e, t', r) == Observe(m, a, Step(m, a, s).value, k)
    ensures Observe(m, e, s', r + c) == Observe(m, a, s, k + 1)
  {
    hide Step, Emits, Observe;
    ObserveStep(m, a, s, k);
    if c == 2 {
      var i := Step(m, e, s').value;
      ObserveStep(m, e, i, r);
      assert Observe(m, e, i, r + 1) == Observe(m, e, t', r);
      ObserveStep(m, e, s', r + 1);
    } else {
      ObserveStep(m, e, s', r);
    }
  }

  /** Halfway through the two steps nothing more is seen than before them. */
  lemma Halfway<D>(m: Machine<D>, a: seq<Line>, s: State<D>, e: seq<Line>, s': State<D>, t': State<D>, c: nat, r: nat)
    requires Keeps(m, a, s, e, s', t', c) && r < c
    ensures Observe(m, e, s', r) == Observe(m, a, s, 0)
  {
    hide Step, Emits, Observe;
    ObserveHere(m, a, s, 0);
    if r == 0 {
      ObserveHere(m, e, s', 0);
    } else {
      ObserveHere(m, e, Step(m, e, s').value, 0);
      ObserveStep(m, e, s', 0);
    }
  }

  /** Every state `s` of stream `a` steps as `h(s)` does in stream `e`. */
  ghost predicate Simulates<D(!new)>(m: Machine<D>, a: seq<Line>, e: seq<Line>, h: State<D> -> State<D>) {
    forall s :: SimulatesAt(m, a, e, h, s)
  }

  ghost predicate SimulatesAt<D>(m: Machine<D>, a: seq<Line>, e: seq<Line>, h: State<D> -> State<D>, s: State<D>) {
    match Step(m, a, s)
    case None => Step(m, e, h(s)).None? && h(s).data == s.data
    case Some(t) => exists c: nat :: Keeps(m, a, s, e, h(s), h(t), c)
  }

  lemma {:induction false} Forward<D(!new)>(m: Machine<D>, a: seq<Line>, e: seq<Line>, h: State<D> -> State<D>,
                                            s: State<D>, n: nat) returns (n': nat)
    requires Simulates(m, a, e, h)
    ensures Observe(m, e, h(s), n') == Observe(m, a, s, n)
    decreases n
  {
    hide Step, Observe, Keeps;
    assert SimulatesAt(m, a, e, h, s);
    if Step(m, a, s).None? {
      n' := 0;
      ObserveHere(m, a, s, n);
      ObserveHere(m, e, h(s), 0);
    } else {
      var t := Step(m, a, s).value;
      var c: nat :| Keeps(m, a, s, e, h(s), h(t), c);
      if n == 0 {
        n' := 0;
        KeepsSome(m, a, s, e, h(s), h(t), c);
        Halfway(m, a, s, e, h(s), h(t), c, 0);
      } else {
        var r := Forward(m, a, e, h, t, n - 1);
        n' := r + c;
        Ahead(m, a, s, e, h(s), h(t), c, n - 1, r);
      }
    }
  }

  lemma KeepsSome<D>(m: Machine<D>, a: seq<Line>, s: State<D>, e: seq<Line>, s': State<D>, t': State<D>, c: nat)
    requires Keeps(m, a, s, e, s', t', c)
    ensures c > 0
  {
  }

  lemma {:induction false} Backward<D(!new)>(m: Machine<D>, a: seq<Line>, e: seq<Line>, h: State<D> -> State<D>,
                                             s: State<D>, n': nat) returns (n: nat)
    requires Simulates(m, a, e, h)
    ensures Observe(m, e, h(s), n') == Observe(m, a, s, n)
    decreases n'
  {
    hide Step, Observe, Keeps;
    assert SimulatesAt(m, a, e, h, s);
    if Step(m, a, s).None? {
      n := 0;
      ObserveHere(m, a, s, 0);
      ObserveHere(m, e, h(s), n');
    } else {
      var t := Step(m, a, s).value;
      var c: nat :| Keeps(m, a, s, e, h(s), h(t), c);
      KeepsSome(m, a, s, e, h(s), h(t), c);
      if n' < c {
        n := 0;
        Halfway(m, a, s, e, h(s), h(t), c, n');
      } else {
        var r := Backward(m, a, e, h, t, n' - c);
        n := r + 1;
        Ahead(m, a, s, e, h(s), h(t), c, r, n' - c);
      }
    }
  }

  /** Each step of the original is one or two of the expanded stream, passing the same label. */
  lemma Matched<D>(m: Machine<D>, a: seq<Line>, li: nat, serial: nat, h: State<D> -> State<D>, s: State<D>)
    requires Expandable(a, li, serial)
    requires forall x: State<D> :: h(x) == MovedState(li, |LongForm(a[li], serial)|, x)
    ensures SimulatesAt(m, a, Expand(a, li, serial), h, s)
  {
    assert li < |a| && IsRelative(a[li]);
    hide Expand, Expandable, Step, Emits, LongForm, MovedState;
    var e := Expand(a, li, serial);
    if s.pc == li {
      var c := StepExpanded(m, a, li, serial, s);
      assert Keeps(m, a, s, e, h(s), h(Step(m, a, s).value), c);
    } else {
      StepElsewhere(m, a, li, serial, s);
      assert Step(m, a, s).Some? ==> Keeps(m, a, s, e, h(s), h(Step(m, a, s).value), 1);
    }
  }

  /** One expansion keeps the behaviour. */
  lemma RoundKeeps<D(!new)>(m: Machine<D>, a: seq<Line>, li: nat, serial: nat, s: State<D>)
    requires Expandable(a, li, serial)
    ensures SameBehaviour(m, a, s, Expand(a, li, serial), MovedState(li, |LongForm(a[li], serial)|, s))
  {
    assert li < |a| && IsRelative(a[li]);
    hide Expandable, Expand, Observe, SimulatesAt, MovedState, LongForm;
    var e, n := Expand(a, li, serial), |LongForm(a[li], serial)|;
    var h: State<D> -> State<D> := (x: State<D>) => MovedState(li, n, x);
    forall x: State<D> ensures SimulatesAt(m, a, e, h, x) {
      Matched(m, a, li, serial, h, x);
    }
    assert h(s) == MovedState(li, n, s);
    Same(m, a, e, h, s);
  }

  lemma Same<D(!new)>(m: Machine<D>, a: seq<Line>, e: seq<Line>, h: State<D> -> State<D>, s: State<D>)
    requires Simulates(m, a, e, h)
    ensures SameBehaviour(m, a, s, e, h(s))
  {
    hide Observe, Simulates;
    forall n: nat ensures Shows(m, e, h(s), Observe(m, a, s, n)) {
      var n' := Forward(m, a, e, h, s, n);
    }
    forall n': nat ensures Shows(m, a, s, Observe(m, e, h(s), n')) {
      var n := Backward(m, a, e, h, s, n');
    }
  }

  // ---- The conditions survive a round ------------------------------------------------

  lemma LabelledKept(a: seq<Line>, li: nat, serial: nat)
    requires Expandable(a, li, serial)
    ensures JumpsLabelled(Expand(a, li, serial))
  {
    assert li < |a| && IsRelative(a[li]) && Tidy(a, serial);
    hide Expandable, Expand, LabelOf;
    var e, n := Expand(a, li, serial), |LongForm(a[li], serial)|;
    forall k: nat | k < |e| && IsJump(e[k]) ensures LabelOf(e, e[k].target).Some? {
      ExpandAt(a, li, serial, k);
      if k == li && a[li].CondBranch? {
        SkipLabelAt(a, li, serial);
      } else {
        var k' := if k < li then k else if k < li + n then li else k - n + 1;
        assert IsJump(a[k']) && a[k'].target == e[k].target;
        TargetBelow(a, li, serial, k');
        LabelMoved(a, li, serial, e[k].target);
      }
    }
  }

  lemma UnguardedKept(a: seq<Line>, li: nat, serial: nat)
    requires Expandable(a, li, serial)
    ensures NoBranchUnderSkip(Expand(a, li, serial))
  {
    hide Expand, Tidy, JumpsLabelled, NextInstr;
    var e, n := Expand(a, li, serial), |LongForm(a[li], serial)|;
    forall k: nat | k < |e| && e[k].Skip? ensures Unguarded(e, k) {
      ExpandAt(a, li, serial, k);
      var k' := if k < li then k else k - n + 1;
      assert !(li <= k < li + n) && a[k'].Skip? && k == Moved(li, n, k');
      assert Unguarded(a, k');
      NextMoved(a, li, serial, k' + 1);
      var j := NextInstr(a, k' + 1);
      if j < |a| { ExpandAt(a, li, serial, Moved(li, n, j)); }
    }
  }

  lemma DistinctKept(a: seq<Line>, li: nat, serial: nat)
    requires Expandable(a, li, serial) && Distinct(a)
    ensures Distinct(Expand(a, li, serial))
  {
    assert li < |a| && IsRelative(a[li]) && Tidy(a, serial);
    hide Expand, Expandable;
    hide Tidy;
    var e, n := Expand(a, li, serial), |LongForm(a[li], serial)|;
    forall j: nat, k: nat | j < k < |e| && Defines(e[j]) && Defines(e[k]) ensures e[j].name != e[k].name {
      OldOrNew(a, li, serial, j);
      OldOrNew(a, li, serial, k);
    }
  }

  /** A definition of the expanded stream is an old one, moved, or the made-up label. */
  lemma OldOrNew(a: seq<Line>, li: nat, serial: nat, k: nat)
    requires Tidy(a, serial) && li < |a| && IsRelative(a[li]) && k < |Expand(a, li, serial)|
    requires Defines(Expand(a, li, serial)[k])
    ensures var e := Expand(a, li, serial); var n := |LongForm(a[li], serial)|;
            if e[k].name == FarSkip(serial) then k == li + 2 && n == 3
            else !(li <= k < li + n) && e[k] == a[if k < li then k else k - n + 1]
  {
    hide Expand, SkipPlaced, SkipsUnique;
    var n := |LongForm(a[li], serial)|;
    ExpandAt(a, li, serial, k);
    if k < li { assert NamesBelow(a[k], serial); }
    if li + n <= k { assert NamesBelow(a[k - n + 1], serial); }
  }

  // ---- Any number of rounds ----------------------------------------------------------

  lemma SameTransitive<D(!new)>(m: Machine<D>, a: seq<Line>, sa: State<D>, b: seq<Line>, sb: State<D>,
                                c: seq<Line>, sc: State<D>)
    requires SameBehaviour(m, a, sa, b, sb) && SameBehaviour(m, b, sb, c, sc)
    ensures SameBehaviour(m, a, sa, c, sc)
  {
    hide Observe;
    forall n: nat ensures Shows(m, c, sc, Observe(m, a, sa, n)) {
      assert Shows(m, b, sb, Observe(m, a, sa, n));
      var n' : nat :| Observe(m, b, sb, n') == Observe(m, a, sa, n);
      assert Shows(m, c, sc, Observe(m, b, sb, n'));
    }
    forall n: nat ensures Shows(m, a, sa, Observe(m, c, sc, n)) {
      assert Shows(m, b, sb, Observe(m, c, sc, n));
      var n' : nat :| Observe(m, b, sb, n') == Observe(m, c, sc, n);
      assert Shows(m, a, sa, Observe(m, b, sb, n'));
    }
  }

  /** What relaxation asks of its input, and keeps. */
  ghost predicate Relaxable(ls: seq<Line>) {
    Distinct(ls) && JumpsLabelled(ls) && NoBranchUnderSkip(ls)
  }

  /** The relaxed stream passes the same labels with the same data, and stops when the
      original stops, from the top or from any source label, on any machine. */
  lemma {:induction false} RelaxKeepsMeaning<D(!new)>(m: Machine<D>, rounds: seq<Stage>, k: nat,
                                                      at: Option<string>, d: D)
    requires Rounds(rounds) && k < |rounds| && Relaxable(rounds[0].0)
    requires at.Some? ==> LabelOf(rounds[0].0, User(at.value)).Some?
    ensures Relaxable(rounds[k].0) && (at.Some? ==> LabelOf(rounds[k].0, User(at.value)).Some?)
    ensures SameBehaviour(m, rounds[0].0, Start(rounds[0].0, at, d), rounds[k].0, Start(rounds[k].0, at, d))
  {
    hide Observe, Relaxable, SameBehaviour, LabelOf, Expand, Tidy;
    if k == 0 {
      SameAsSelf(m, rounds[0].0, Start(rounds[0].0, at, d));
    } else {
      RelaxKeepsMeaning(m, rounds, k - 1, at, d);
      assert RoundOf(rounds, k - 1);
      var a, b := rounds[k - 1], rounds[k];
      var li: nat, serial: nat :| RoundAt(a, b, li, serial);
      KeepsOne(m, a.0, li, serial, at, d);
      SameTransitive(m, rounds[0].0, Start(rounds[0].0, at, d), a.0, Start(a.0, at, d), b.0, Start(b.0, at, d));
    }
  }

  lemma SameAsSelf<D(!new)>(m: Machine<D>, a: seq<Line>, s: State<D>)
    ensures SameBehaviour(m, a, s, a, s)
  {
    hide Observe;
    forall n: nat ensures Shows(m, a, s, Observe(m, a, s, n)) { }
  }

  lemma KeepsOne<D(!new)>(m: Machine<D>, a: seq<Line>, li: nat, serial: nat, at: Option<string>, d: D)
    requires Relaxable(a) && li < |a| && IsRelative(a[li]) && a[li].target.User? && Tidy(a, serial)
    requires at.Some? ==> LabelOf(a, User(at.value)).Some?
    ensures var e := Expand(a, li, serial);
            && Relaxable(e) && (at.Some? ==> LabelOf(e, User(at.value)).Some?)
            && SameBehaviour(m, a, Start(a, at, d), e, Start(e, at, d))
  {
    hide Observe, SameBehaviour, LabelOf, Expand, Tidy, Distinct, JumpsLabelled, NoBranchUnderSkip;
    assert Expandable(a, li, serial);
    LabelledKept(a, li, serial);
    UnguardedKept(a, li, serial);
    DistinctKept(a, li, serial);
    if at.Some? { LabelMoved(a, li, serial, User(at.value)); }
    RoundKeeps(m, a, li, serial, Start(a, at, d));
    assert MovedState(li, |LongForm(a[li], serial)|, Start(a, at, d)) == Start(Expand(a, li, serial), at, d);
  }
}
