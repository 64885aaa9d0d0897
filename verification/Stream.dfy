/** The PIC18 assembler's line stream: typed entries, byte addresses, and the walks that
    compute label addresses, instruction addresses and debug rows from it. */
module Stream {
  import opened Wrappers

  /** `FarSkip` names are the ones the branch expansion makes up. */
  datatype Name = User(text: string) | FarSkip(serial: nat)

  datatype Flag = Zero | Carry | Overflow | Negative

  /** A branch condition: the flag, and the value it must have. */
  datatype Cond = Cond(flag: Flag, want: bool)

  datatype Line =
    | Label(name: Name)
    | Equ(name: Name, val: nat)
    | Org(addr: nat)
    | Db(count: nat)
    | CondBranch(cond: Cond, target: Name)
    | Bra(target: Name)
    | Rcall(target: Name)
    | Goto(target: Name)
    | Call(target: Name)
    | Return
    | Skip(op: nat)
    | Other(op: nat, two: bool)   // any other instruction, of one word or two

  predicate IsInstr(l: Line) {
    !l.Label? && !l.Equ? && !l.Org? && !l.Db?
  }

  predicate IsRelative(l: Line) {
    l.CondBranch? || l.Bra? || l.Rcall?
  }

  function Words(l: Line): nat {
    if l.Goto? || l.Call? || (l.Other? && l.two) then 2 else 1
  }

  /** Bytes a line takes. */
  function Size(l: Line): nat {
    if l.Db? then l.count else if IsInstr(l) then 2 * Words(l) else 0
  }

  /** The byte address line `k` starts at. */
  function AddrAt(ls: seq<Line>, k: nat): nat
    requires k <= |ls|
  {
    if k == 0 then 0
    else if ls[k - 1].Org? then ls[k - 1].addr
    else AddrAt(ls, k - 1) + Size(ls[k - 1])
  }

  // ---- Symbols -----------------------------------------------------------------------

  type Symbols = map<Name, nat>

  /** The name an underscore-free symbol can also be reached by. */
  function Alias(n: Name): Option<Name> {
    if n.User? && !(n.text != "" && n.text[0] == '_') then Some(User("_" + n.text)) else None
  }

  function InsertLabel(m: Symbols, n: Name, a: nat): Symbols {
    var m' := m[n := a];
    match Alias(n)
    case Some(x) => if x in m' then m' else m'[x := a]
    case None => m'
  }

  predicate Defines(l: Line) {
    l.Label? || l.Equ?
  }

  function DefValue(ls: seq<Line>, k: nat): nat
    requires k < |ls| && Defines(ls[k])
  {
    if ls[k].Label? then AddrAt(ls, k) else ls[k].val
  }

  /** One walk over the stream: every label's byte address, every `equ`'s value, the total size. */
  method ResolveLabels(ls: seq<Line>) returns (symbols: Symbols, org: nat)
    ensures symbols == SymbolsAt(ls, |ls|) && org == AddrAt(ls, |ls|)
  {
    symbols, org := map[], 0;
    for k := 0 to |ls|
      invariant symbols == SymbolsAt(ls, k) && org == AddrAt(ls, k)
    {
      match ls[k]
      case Label(n) => symbols := InsertLabel(symbols, n, org);
      case Equ(n, v) => symbols := InsertLabel(symbols, n, v);
      case Org(a) => org := a;
      case Db(c) => org := org + c;
      case l => org := org + Words(l) * 2;
    }
  }

  /** The symbols after the first `k` lines. */
  function SymbolsAt(ls: seq<Line>, k: nat): Symbols
    requires k <= |ls|
  {
    if k == 0 then map[]
    else if Defines(ls[k - 1]) then InsertLabel(SymbolsAt(ls, k - 1), ls[k - 1].name, DefValue(ls, k - 1))
    else SymbolsAt(ls, k - 1)
  }

  ghost predicate Distinct(ls: seq<Line>) {
    forall j: nat, k: nat :: j < k < |ls| && Defines(ls[j]) && Defines(ls[k]) ==> ls[j].name != ls[k].name
  }

  function DefinerFrom(ls: seq<Line>, n: Name, k: nat): (r: Option<nat>)
    requires k <= |ls|
    ensures r.Some? ==> k <= r.value < |ls| && Defines(ls[r.value]) && ls[r.value].name == n
    ensures r.None? ==> forall j :: k <= j < |ls| && Defines(ls[j]) ==> ls[j].name != n
    decreases |ls| - k
  {
    if k == |ls| then None
    else if Defines(ls[k]) && ls[k].name == n then Some(k)
    else DefinerFrom(ls, n, k + 1)
  }

  /** The underscore-free name `n` can stand for. */
  function Base(n: Name): Option<Name> {
    if n.User? && n.text != "" && n.text[0] == '_' && Alias(User(n.text[1..])).Some?
    then Some(User(n.text[1..])) else None
  }

  /** The line that gives `n` its value: its own definition, or else its underscore-free name's. */
  function Definer(ls: seq<Line>, n: Name): (r: Option<nat>)
    ensures r.Some? ==> r.value < |ls| && Defines(ls[r.value])
  {
    match DefinerFrom(ls, n, 0)
    case Some(k) => Some(k)
    case None => match Base(n) case Some(b) => DefinerFrom(ls, b, 0) case None => None
  }

  lemma AliasBase(n: Name, x: Name)
    ensures Alias(n) == Some(x) <==> Base(x) == Some(n)
  {
    if Alias(n) == Some(x) {
      assert x.text[1..] == n.text;
    }
    if Base(x) == Some(n) {
      assert "_" + n.text == x.text;
    }
  }

  /** What the first `k` lines say of `n`, whatever comes later. */
  ghost predicate SymbolIs(ls: seq<Line>, k: nat, n: Name, m: Symbols)
    requires k <= |ls|
  {
    var own := DefinerFrom(ls[..k], n, 0);
    var via := match Base(n) case Some(b) => DefinerFrom(ls[..k], b, 0) case None => None;
    var d := if own.Some? then own else via;
    && (n in m <==> d.Some?)
    && (d.Some? ==> m[n] == DefValue(ls, d.value))
  }

  lemma {:induction false} DefinerSnoc(ls: seq<Line>, n: Name, k: nat, j: nat)
    requires j <= k < |ls|
    ensures DefinerFrom(ls[..k + 1], n, j)
         == (match DefinerFrom(ls[..k], n, j)
             case Some(p) => Some(p)
             case None => if Defines(ls[k]) && ls[k].name == n then Some(k) else None)
    decreases k - j
  {
    if j < k { DefinerSnoc(ls, n, k, j + 1); }
  }

  /** Each symbol has the value of the line that defines it, under its alias too. */
  lemma {:induction false} SymbolsAre(ls: seq<Line>, k: nat, n: Name)
    requires Distinct(ls) && k <= |ls|
    ensures SymbolIs(ls, k, n, SymbolsAt(ls, k))
  {
    if k == 0 {
    } else {
      var l := ls[k - 1];
      SymbolsAre(ls, k - 1, n);
      DefinerSnoc(ls, n, k - 1, 0);
      if Base(n).Some? {
        DefinerSnoc(ls, Base(n).value, k - 1, 0);
      }
      if Defines(l) {
        AliasBase(l.name, n);
        var own := DefinerFrom(ls[..k - 1], l.name, 0);
        assert own.None?;
      }
    }
  }

  lemma SymbolValue(ls: seq<Line>, n: Name)
    requires Distinct(ls)
    ensures n in SymbolsAt(ls, |ls|) <==> Definer(ls, n).Some?
    ensures Definer(ls, n).Some? ==> SymbolsAt(ls, |ls|)[n] == DefValue(ls, Definer(ls, n).value)
  {
    SymbolsAre(ls, |ls|, n);
    assert ls[..|ls|] == ls;
  }

  // ---- Instructions and debug rows ---------------------------------------------------

  function CountInstrs(ls: seq<Line>, k: nat): nat
    requires k <= |ls|
  {
    if k == 0 then 0 else CountInstrs(ls, k - 1) + if IsInstr(ls[k - 1]) then 1 else 0
  }

  ghost predicate InstrsAre(ls: seq<Line>, k: nat, instrs: seq<(nat, Line)>)
    requires k <= |ls|
  {
    && |instrs| == CountInstrs(ls, k)
    && forall j: nat :: j < k && IsInstr(ls[j]) ==> InstrIs(ls, j, instrs)
  }

  /** The instruction on line `j` is listed, in its turn and at its address. */
  ghost predicate InstrIs(ls: seq<Line>, j: nat, instrs: seq<(nat, Line)>)
    requires j < |ls|
  {
    CountInstrs(ls, j) < |instrs| && instrs[CountInstrs(ls, j)] == (AddrAt(ls, j), ls[j])
  }

  method LayoutAddrs(ls: seq<Line>) returns (instrs: seq<(nat, Line)>, dbs: seq<nat>, org: nat)
    ensures InstrsAre(ls, |ls|, instrs) && org == AddrAt(ls, |ls|)
    ensures dbs == DataAddrs(ls, |ls|)
  {
    instrs, dbs, org := [], [], 0;
    for k := 0 to |ls|
      invariant InstrsAre(ls, k, instrs) && org == AddrAt(ls, k) && dbs == DataAddrs(ls, k)
    {
      ghost var before := instrs;
      match ls[k] {
        case Label(_) =>
        case Equ(_, _) =>
        case Org(a) => org := a;
        case Db(c) =>
          ghost var dbs0 := dbs;
          for b := 0 to c
            invariant dbs == dbs0 + BytesFrom(AddrAt(ls, k), b) && org == AddrAt(ls, k) + b
          {
            dbs := dbs + [org];
            org := org + 1;
          }
        case l =>
          instrs := instrs + [(org, l)];
          org := org + Words(l) * 2;
      }
      forall j: nat | j < k + 1 && IsInstr(ls[j]) ensures InstrIs(ls, j, instrs) {
        if j < k { assert InstrIs(ls, j, before); }
      }
    }
  }

  ghost function BytesFrom(a: nat, n: nat): seq<nat> {
    if n == 0 then [] else BytesFrom(a, n - 1) + [a + n - 1]
  }

  /** The byte address of every data byte of the first `k` lines, in order. */
  ghost function DataAddrs(ls: seq<Line>, k: nat): seq<nat>
    requires k <= |ls|
  {
    if k == 0 then []
    else DataAddrs(ls, k - 1) +
         if ls[k - 1].Db? then BytesFrom(AddrAt(ls, k - 1), ls[k - 1].count) else []
  }

  /** The debug rows: the source location and 16-bit byte address of each located line. */
  method DebugRows(ls: seq<Line>, locs: seq<Option<nat>>) returns (rows: seq<(nat, nat)>)
    requires |locs| == |ls|
    ensures rows == RowsAt(ls, locs, |ls|)
  {
    rows := [];
    var org := 0;
    for k := 0 to |ls|
      invariant rows == RowsAt(ls, locs, k) && org == AddrAt(ls, k)
    {
      match ls[k] {
        case Label(_) =>
        case Equ(_, _) =>
        case Org(a) => org := a;
        case l =>
          if locs[k].Some? { rows := rows + [(locs[k].value, org % 0x1_0000)]; }
          org := org + if l.Db? then l.count else Words(l) * 2;
      }
    }
  }

  ghost function RowsAt(ls: seq<Line>, locs: seq<Option<nat>>, k: nat): seq<(nat, nat)>
    requires |locs| == |ls| && k <= |ls|
  {
    if k == 0 then []
    else RowsAt(ls, locs, k - 1) +
         if (IsInstr(ls[k - 1]) || ls[k - 1].Db?) && locs[k - 1].Some?
         then [(locs[k - 1].value, AddrAt(ls, k - 1) % 0x1_0000)] else []
  }

  /** The `i`-th instruction, mapped back to its stream index. */
  method StreamIndex(ls: seq<Line>, i: nat) returns (li: nat)
    requires i < CountInstrs(ls, |ls|)
    ensures li < |ls| && IsInstr(ls[li]) && CountInstrs(ls, li) == i
  {
    li := 0;
    var n := 0;
    while li < |ls|
      invariant li <= |ls| && n == CountInstrs(ls, li) <= i
    {
      if !IsInstr(ls[li]) {
        li := li + 1;
        continue;
      }
      if n == i { break; }
      n := n + 1;
      li := li + 1;
    }
  }
}
