/** The placed words run as the lines do: a machine that fetches by byte address, decodes the
    branch words and goes where they say, against the line machine of a relaxed stream. */
module WordRun {
  import opened Wrappers
  import opened Stream
  import opened Relax
  import opened RelaxMeaning
  import opened Encode

  // ---- The machine -------------------------------------------------------------------

  /** Return addresses on the stack are byte addresses. */
  datatype WState<D> = WState(addr: nat, stack: seq<nat>, data: D)

  /** The instruction placed at byte address `a`, from line `k` on. */
  function PlacedFrom(ls: seq<Line>, a: nat, k: nat): (r: Option<nat>)
    requires k <= |ls|
    ensures r.Some? ==> k <= r.value < |ls| && IsInstr(ls[r.value]) && AddrAt(ls, r.value) == a
    ensures r.Some? ==> forall j :: k <= j < r.value ==> !(IsInstr(ls[j]) && AddrAt(ls, j) == a)
    ensures r.None? ==> forall j :: k <= j < |ls| ==> !(IsInstr(ls[j]) && AddrAt(ls, j) == a)
    decreases |ls| - k
  {
    if k == |ls| then None
    else if IsInstr(ls[k]) && AddrAt(ls, k) == a then Some(k)
    else PlacedFrom(ls, a, k + 1)
  }

  /** What the branch on line `k` decodes to; `None` when it has no words. */
  function Branch(ls: seq<Line>, k: nat): Option<Decoded>
    requires k < |ls| && IsJump(ls[k])
  {
    if ls[k].target in SymbolsAt(ls, |ls|) && Near(ls[k], AddrAt(ls, k), SymbolsAt(ls, |ls|)) then
      var (w, w') := BranchWords(ls, k);
      Some(Decode(w, w'))
    else None
  }

  /** Branch to where `b` says. */
  function Take<D>(b: Decoded, s: WState<D>, stack: seq<nat>): Option<WState<D>> {
    if Destination(b, s.addr) < 0 then None else Some(s.(addr := Destination(b, s.addr), stack := stack))
  }

  function RunBranch<D>(m: Machine<D>, b: Decoded, s: WState<D>): Option<WState<D>> {
    match b
    case DCond(c, _) => if m.test(c.flag, s.data) == c.want then Take(b, s, s.stack) else Some(s.(addr := s.addr + 2))
    case DBra(_) => Take(b, s, s.stack)
    case DGoto(_) => Take(b, s, s.stack)
    case DRcall(_) => Take(b, s, s.stack + [s.addr + 2])
    case DCall(_) => Take(b, s, s.stack + [s.addr + 4])
    case Unknown => None
  }

  /** The address behind the instruction placed at `a`: a skip passes over all of it. */
  function Behind(ls: seq<Line>, a: nat): nat {
    match PlacedFrom(ls, a, 0) case Some(k) => a + Size(ls[k]) case None => a + 2
  }

  /** One instruction; `None` when the run stops: nothing to fetch, or nothing to return to. */
  function WStep<D>(m: Machine<D>, ls: seq<Line>, s: WState<D>): Option<WState<D>> {
    match PlacedFrom(ls, s.addr, 0)
    case None => None
    case Some(k) =>
      var l := ls[k];
      if l.Return? then
        if s.stack == [] then None else Some(WState(s.stack[|s.stack| - 1], s.stack[..|s.stack| - 1], s.data))
      else if l.Skip? then
        Some(WState(if m.skips(l.op, s.data) then Behind(ls, s.addr + 2) else s.addr + 2, s.stack,
                    m.exec(l.op, s.data)))
      else if l.Other? then Some(WState(s.addr + Size(l), s.stack, m.exec(l.op, s.data)))
      else
        match Branch(ls, k)
        case None => None
        case Some(b) => RunBranch(m, b, s)
  }

  function WRun<D>(m: Machine<D>, ls: seq<Line>, s: WState<D>, n: nat): WState<D>
    decreases n
  {
    if n == 0 || WStep(m, ls, s).None? then s else WRun(m, ls, WStep(m, ls, s).value, n - 1)
  }

  // ---- Streams that are placed in one piece ------------------------------------------

  predicate Leading(l: Line) {
    l.Org? || l.Equ?
  }

  /** How many lines stand ahead of all code, data and labels. */
  function Lead(ls: seq<Line>): (r: nat)
    ensures r <= |ls| && forall k :: 0 <= k < r ==> Leading(ls[k])
    ensures r < |ls| ==> !Leading(ls[r])
  {
    LeadFrom(ls, 0)
  }

  function LeadFrom(ls: seq<Line>, k: nat): (r: nat)
    requires k <= |ls|
    ensures k <= r <= |ls| && (forall j :: k <= j < r ==> Leading(ls[j])) && (r < |ls| ==> !Leading(ls[r]))
    decreases |ls| - k
  {
    if k == |ls| || !Leading(ls[k]) then k else LeadFrom(ls, k + 1)
  }

  /** No `org` behind code, data or a label; data in whole words; a skip guards an instruction;
      every address has a 20-bit word number. */
  ghost predicate OnePiece(ls: seq<Line>) {
    && (forall k: nat :: Lead(ls) <= k < |ls| ==> !ls[k].Org?)
    && (forall k: nat :: k < |ls| && ls[k].Db? ==> ls[k].count > 0)
    && WordAligned(ls)
    && (forall k: nat :: k < |ls| && ls[k].Skip? ==> SkipGuards(ls, k))
    && (forall k: nat :: k <= |ls| ==> AddrAt(ls, k) < 0x20_0000)
  }

  predicate SkipGuards(ls: seq<Line>, k: nat)
    requires k < |ls|
  {
    NextInstr(ls, k + 1) < |ls| && IsInstr(ls[NextInstr(ls, k + 1)])
  }

  /** The byte address of a line state; leading lines stand where the code starts. */
  function Addr(ls: seq<Line>, k: nat): nat
    requires k <= |ls|
  {
    AddrAt(ls, if k < Lead(ls) then Lead(ls) else k)
  }

  /** Every position is in the text. */
  ghost predicate Inside<D>(ls: seq<Line>, s: State<D>) {
    s.pc <= |ls| && forall i :: 0 <= i < |s.stack| ==> s.stack[i] <= |ls|
  }

  function Addrs(ls: seq<Line>, stack: seq<nat>): (r: seq<nat>)
    requires forall i :: 0 <= i < |stack| ==> stack[i] <= |ls|
    ensures |r| == |stack| && forall i :: 0 <= i < |r| ==> r[i] == Addr(ls, stack[i])
  {
    seq(|stack|, i requires 0 <= i < |stack| => Addr(ls, stack[i]))
  }

  ghost function Rep<D>(ls: seq<Line>, s: State<D>): WState<D>
    requires Inside(ls, s)
  {
    WState(Addr(ls, s.pc), Addrs(ls, s.stack), s.data)
  }

  // ---- Where instructions are --------------------------------------------------------

  lemma {:induction false} AddrRises(ls: seq<Line>, j: nat, k: nat)
    requires OnePiece(ls) && Lead(ls) <= j <= k <= |ls|
    ensures AddrAt(ls, j) <= AddrAt(ls, k)
    ensures j < k && (IsInstr(ls[j]) || ls[j].Db?) ==> AddrAt(ls, j) < AddrAt(ls, k)
    decreases k - j
  {
    if j < k {
      AddrRises(ls, j, k - 1);
      assert !ls[k - 1].Org?;
    }
  }

  /** An instruction is fetched at its own address, and nowhere else. */
  lemma FetchedHere(ls: seq<Line>, k: nat)
    requires OnePiece(ls) && k < |ls| && IsInstr(ls[k])
    ensures Lead(ls) <= k && PlacedFrom(ls, AddrAt(ls, k), 0) == Some(k)
  {
    hide OnePiece, AddrAt;
    var r := PlacedFrom(ls, AddrAt(ls, k), 0);
    assert r.Some?;
    if r.value < k { AddrRises(ls, r.value, k); }
  }

  /** Nothing is fetched at the end of the text or at data. */
  lemma NothingFetched(ls: seq<Line>, k: nat)
    requires OnePiece(ls) && Lead(ls) <= k <= |ls| && (k < |ls| ==> ls[k].Db?)
    ensures PlacedFrom(ls, AddrAt(ls, k), 0) == None
  {
    hide OnePiece, AddrAt;
    var r := PlacedFrom(ls, AddrAt(ls, k), 0);
    if r.Some? {
      var j := r.value;
      if j < k { AddrRises(ls, j, k); }
      if k < j { AddrRises(ls, k, j); }
    }
  }

  /** Labels and definitions take no room. */
  lemma {:induction false} NextAddr(ls: seq<Line>, k: nat)
    requires OnePiece(ls) && Lead(ls) <= k <= |ls|
    ensures AddrAt(ls, NextInstr(ls, k)) == AddrAt(ls, k)
    decreases |ls| - k
  {
    if k < |ls| && (ls[k].Label? || ls[k].Equ?) { NextAddr(ls, k + 1); }
  }

  // ---- Branches ----------------------------------------------------------------------

  /** A branch decodes to its own kind and condition, and goes to its label's line. */
  lemma BranchIs(ls: seq<Line>, k: nat)
    requires OnePiece(ls) && AllInRange(ls) && Distinct(ls) && JumpsLabelled(ls) && k < |ls| && IsJump(ls[k])
    ensures Branch(ls, k).Some? && LabelOf(ls, ls[k].target).Some?
    ensures Destination(Branch(ls, k).value, AddrAt(ls, k)) == AddrAt(ls, LabelOf(ls, ls[k].target).value)
    ensures match ls[k]
            case CondBranch(c, _) => Branch(ls, k).value.DCond? && Branch(ls, k).value.cond == c
            case Bra(_) => Branch(ls, k).value.DBra?
            case Rcall(_) => Branch(ls, k).value.DRcall?
            case Goto(_) => Branch(ls, k).value.DGoto?
            case Call(_) => Branch(ls, k).value.DCall?
            case _ => true
  {
    var p := LabelOf(ls, ls[k].target).value;
    AddrEven(ls, p);
    BranchReachesLabel(ls, k);
    SymbolValue(ls, ls[k].target);
    hide OnePiece, AllInRange, Distinct, JumpsLabelled, Definer, SymbolsAt, AddrAt, Near, Decode, EncodeRelative,
         EncodeAbsolute, LabelOf, Destination;
    var target := SymbolsAt(ls, |ls|)[ls[k].target];
    if IsRelative(ls[k]) {
      NearIs(ls[k], AddrAt(ls, k), SymbolsAt(ls, |ls|));
      RelativeDecodes(ls[k], AddrAt(ls, k), target, 0);
    } else {
      TargetSmall(ls, ls[k].target);
      AbsoluteDecodes(ls[k], target);
    }
  }

  lemma TargetSmall(ls: seq<Line>, x: Name)
    requires OnePiece(ls) && Distinct(ls) && LabelOf(ls, x).Some?
    ensures x in SymbolsAt(ls, |ls|) && SymbolsAt(ls, |ls|)[x] < 0x20_0000
  {
    SymbolValue(ls, x);
  }

  // ---- Step for step -----------------------------------------------------------------

  /** A line that takes no room changes nothing; any other is one instruction of the words. */
  lemma StepMatches<D>(m: Machine<D>, ls: seq<Line>, s: State<D>)
    requires OnePiece(ls) && AllInRange(ls) && Relaxable(ls) && Inside(ls, s)
    ensures var s' := Step(m, ls, s);
      && (s'.Some? ==> s.pc < |ls| && Inside(ls, s'.value))
      && (s'.None? ==> WStep(m, ls, Rep(ls, s)) == None)
      && (s'.Some? && !IsInstr(ls[s.pc]) ==> Rep(ls, s'.value) == Rep(ls, s))
      && (s'.Some? && IsInstr(ls[s.pc]) ==> WStep(m, ls, Rep(ls, s)) == Some(Rep(ls, s'.value)))
  {
    if s.pc >= |ls| || ls[s.pc].Db? {
      AtStop(m, ls, s);
    } else if IsJump(ls[s.pc]) {
      JumpStep(m, ls, s);
    } else if ls[s.pc].Skip? {
      SkipStep(m, ls, s);
    } else if ls[s.pc].Return? {
      ReturnStep(m, ls, s);
    } else {
      PlainStep(m, ls, s);
    }
  }

  lemma AtStop<D>(m: Machine<D>, ls: seq<Line>, s: State<D>)
    requires OnePiece(ls) && Inside(ls, s) && (s.pc < |ls| ==> ls[s.pc].Db?)
    ensures Step(m, ls, s) == None && WStep(m, ls, Rep(ls, s)) == None
  {
    hide OnePiece, AddrAt;
    NothingFetched(ls, s.pc);
  }

  lemma PlainStep<D>(m: Machine<D>, ls: seq<Line>, s: State<D>)
    requires OnePiece(ls) && Inside(ls, s) && s.pc < |ls|
    requires ls[s.pc].Other? || ls[s.pc].Label? || ls[s.pc].Equ? || ls[s.pc].Org?
    ensures var s' := Step(m, ls, s);
      && s'.Some? && Inside(ls, s'.value)
      && (!IsInstr(ls[s.pc]) ==> Rep(ls, s'.value) == Rep(ls, s))
      && (IsInstr(ls[s.pc]) ==> WStep(m, ls, Rep(ls, s)) == Some(Rep(ls, s'.value)))
  {
    assert s.pc >= Lead(ls) ==> !ls[s.pc].Org?;
    hide OnePiece, Size;
    if IsInstr(ls[s.pc]) {
      FetchedHere(ls, s.pc);
    } else {
      RoomNone(ls[s.pc]);
    }
  }

  lemma RoomNone(l: Line)
    requires l.Label? || l.Equ? || l.Org?
    ensures Size(l) == 0
  {
  }

  lemma ReturnStep<D>(m: Machine<D>, ls: seq<Line>, s: State<D>)
    requires OnePiece(ls) && Inside(ls, s) && s.pc < |ls| && ls[s.pc].Return?
    ensures var s' := Step(m, ls, s);
      && (s'.None? ==> WStep(m, ls, Rep(ls, s)) == None)
      && (s'.Some? ==> Inside(ls, s'.value) && WStep(m, ls, Rep(ls, s)) == Some(Rep(ls, s'.value)))
  {
    hide OnePiece, AddrAt;
    FetchedHere(ls, s.pc);
    if s.stack != [] {
      var rest := s.stack[..|s.stack| - 1];
      assert Addrs(ls, s.stack)[..|s.stack| - 1] == Addrs(ls, rest);
    }
  }

  lemma SkipStep<D>(m: Machine<D>, ls: seq<Line>, s: State<D>)
    requires OnePiece(ls) && Inside(ls, s) && s.pc < |ls| && ls[s.pc].Skip?
    ensures var s' := Step(m, ls, s);
      s'.Some? && Inside(ls, s'.value) && WStep(m, ls, Rep(ls, s)) == Some(Rep(ls, s'.value))
  {
    hide OnePiece, AddrAt, Size, NextInstr, PlacedFrom, Lead;
    SkipFacts(ls, s.pc);
  }

  /** A skip is one word, and the instruction it guards is fetched right behind it. */
  lemma SkipFacts(ls: seq<Line>, k: nat)
    requires OnePiece(ls) && k < |ls| && ls[k].Skip?
    ensures var n := NextInstr(ls, k + 1);
      && n < |ls| && Lead(ls) <= k && PlacedFrom(ls, AddrAt(ls, k), 0) == Some(k)
      && AddrAt(ls, k + 1) == AddrAt(ls, k) + 2 && PlacedFrom(ls, AddrAt(ls, k + 1), 0) == Some(n)
      && AddrAt(ls, n + 1) == AddrAt(ls, k + 1) + Size(ls[n])
  {
    assert SkipGuards(ls, k);
    hide OnePiece, AddrAt, Size, NextInstr, PlacedFrom;
    var n := NextInstr(ls, k + 1);
    FetchedHere(ls, k);
    NextAddr(ls, k + 1);
    FetchedHere(ls, n);
    BehindIs(ls, n);
    BehindIs(ls, k);
  }

  lemma BehindIs(ls: seq<Line>, k: nat)
    requires k < |ls| && IsInstr(ls[k])
    ensures AddrAt(ls, k + 1) == AddrAt(ls, k) + Size(ls[k]) && (ls[k].Skip? ==> Size(ls[k]) == 2)
  {
  }

  lemma JumpStep<D>(m: Machine<D>, ls: seq<Line>, s: State<D>)
    requires OnePiece(ls) && AllInRange(ls) && Relaxable(ls) && Inside(ls, s) && s.pc < |ls| && IsJump(ls[s.pc])
    ensures var s' := Step(m, ls, s);
      s'.Some? && Inside(ls, s'.value) && WStep(m, ls, Rep(ls, s)) == Some(Rep(ls, s'.value))
  {
    hide OnePiece, AddrAt, AllInRange, Relaxable, Branch, Destination, LabelOf;
    RelaxableIs(ls);
    FetchedHere(ls, s.pc);
    BranchIs(ls, s.pc);
    JumpSize(ls, s.pc);
    var p := LabelOf(ls, ls[s.pc].target).value;
    LabelsBehindLead(ls, ls[s.pc].target);
    assert Addrs(ls, s.stack + [s.pc + 1]) == Addrs(ls, s.stack) + [Addr(ls, s.pc + 1)];
  }

  lemma RelaxableIs(ls: seq<Line>)
    requires Relaxable(ls)
    ensures Distinct(ls) && JumpsLabelled(ls)
  {
  }

  lemma JumpSize(ls: seq<Line>, k: nat)
    requires k < |ls| && IsJump(ls[k])
    ensures AddrAt(ls, k + 1) == AddrAt(ls, k) + if ls[k].Goto? || ls[k].Call? then 4 else 2
  {
  }

  lemma LabelsBehindLead(ls: seq<Line>, x: Name)
    requires LabelOf(ls, x).Some?
    ensures Lead(ls) <= LabelOf(ls, x).value
  {
  }

  /** The words pass through every state of the line run, and stop when it stops. */
  lemma {:induction false} WordsRunLines<D>(m: Machine<D>, ls: seq<Line>, s: State<D>, n: nat) returns (c: nat)
    requires OnePiece(ls) && AllInRange(ls) && Relaxable(ls) && Inside(ls, s)
    ensures Inside(ls, Run(m, ls, s, n)) && WRun(m, ls, Rep(ls, s), c) == Rep(ls, Run(m, ls, s, n))
    ensures Step(m, ls, Run(m, ls, s, n)).None? ==> WStep(m, ls, Rep(ls, Run(m, ls, s, n))).None?
    decreases n
  {
    hide OnePiece, AllInRange, Relaxable, Step, WStep, Rep, Inside;
    StepMatches(m, ls, s);
    if n == 0 || Step(m, ls, s).None? {
      c := 0;
    } else {
      var s' := Step(m, ls, s).value;
      c := WordsRunLines(m, ls, s', n - 1);
      if IsInstr(ls[s.pc]) { c := c + 1; }
    }
  }

  /** From source to words: whatever a run of the original stream comes to, the words of the
      relaxed one come to as well, with the same data, stopped if it has stopped. */
  lemma SourceToWords<D(!new)>(m: Machine<D>, rounds: seq<Stage>, k: nat, at: Option<string>, d: D, n: nat)
      returns (c: nat)
    requires |rounds| > 0 && Rounds(rounds) && k < |rounds| && Relaxable(rounds[0].0)
    requires at.Some? ==> LabelOf(rounds[0].0, User(at.value)).Some?
    requires AllInRange(rounds[k].0) && OnePiece(rounds[k].0)
    ensures at.Some? ==> LabelOf(rounds[k].0, User(at.value)).Some?
    ensures var o := Observe(m, rounds[0].0, Start(rounds[0].0, at, d), n); var ls := rounds[k].0;
      && Inside(ls, Start(ls, at, d))
      && var e := WRun(m, ls, Rep(ls, Start(ls, at, d)), c);
         e.data == o.data && (o.stopped ==> WStep(m, ls, e).None?)
  {
    hide OnePiece, AllInRange, Relaxable, LabelOf, Step, WStep, Trace, Rounds;
    RelaxKeepsMeaning(m, rounds, k, at, d);
    var a, ls := rounds[0].0, rounds[k].0;
    var sa, sb := Start(a, at, d), Start(ls, at, d);
    var o := Observe(m, a, sa, n);
    assert Shows(m, ls, sb, o);
    var n': nat :| Observe(m, ls, sb, n') == o;
    c := WordsRunLines(m, ls, sb, n');
  }
}
