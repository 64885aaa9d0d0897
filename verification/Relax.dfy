/** Far-branch relaxation: rounds of replacing one out-of-range relative branch by a longer
    form, re-resolving every address in between, until all are in range. */
module Relax {
  import opened Wrappers
  import opened Stream

  // ---- Range -------------------------------------------------------------------------

  /** The word offset of a branch at byte address `addr` to byte address `target`. */
  function Offset(addr: nat, target: nat): int {
    target / 2 - (addr / 2 + 1)
  }

  predicate InRange(l: Line, addr: nat, target: nat) {
    if l.CondBranch? then -128 <= Offset(addr, target) <= 127 else -1024 <= Offset(addr, target) <= 1023
  }

  predicate Near(l: Line, addr: nat, symbols: Symbols) {
    IsRelative(l) ==> l.target in symbols && InRange(l, addr, symbols[l.target])
  }

  datatype Scan = Undefined(at: nat) | Far(at: nat) | AllNear

  /** The first branch, in order, that has no target or cannot reach it. */
  method FirstFar(instrs: seq<(nat, Line)>, symbols: Symbols) returns (s: Scan)
    ensures match s
            case Undefined(i) => i < |instrs| && IsRelative(instrs[i].1) && instrs[i].1.target !in symbols
            case Far(i) => && i < |instrs| && IsRelative(instrs[i].1) && instrs[i].1.target in symbols
                           && !InRange(instrs[i].1, instrs[i].0, symbols[instrs[i].1.target])
                           && forall j :: 0 <= j < i ==> Near(instrs[j].1, instrs[j].0, symbols)
            case AllNear => forall i :: 0 <= i < |instrs| ==> Near(instrs[i].1, instrs[i].0, symbols)
  {
    for i := 0 to |instrs|
      invariant forall j :: 0 <= j < i ==> Near(instrs[j].1, instrs[j].0, symbols)
    {
      var (addr, l) := instrs[i];
      if !IsRelative(l) { continue; }
      if l.target !in symbols { return Undefined(i); }
      if !InRange(l, addr, symbols[l.target]) { return Far(i); }
    }
    return AllNear;
  }

  // ---- One expansion -----------------------------------------------------------------

  function Invert(c: Cond): Cond {
    c.(want := !c.want)
  }

  /** What replaces the relative branch `l`. */
  function LongForm(l: Line, serial: nat): (f: seq<Line>)
    requires IsRelative(l)
    ensures |f| == if l.CondBranch? then 3 else 1
  {
    match l
    case Bra(x) => [Goto(x)]
    case Rcall(x) => [Call(x)]
    case CondBranch(c, x) => [CondBranch(Invert(c), FarSkip(serial)), Bra(x), Label(FarSkip(serial))]
  }

  function Expand(ls: seq<Line>, li: nat, serial: nat): (e: seq<Line>)
    requires li < |ls| && IsRelative(ls[li])
    ensures |e| == |ls| + |LongForm(ls[li], serial)| - 1
  {
    ls[..li] + LongForm(ls[li], serial) + ls[li + 1..]
  }

  /** The locations of the long form: the branch's own, and none for the skip label. */
  function ExpandLocs(locs: seq<Option<nat>>, l: Line, li: nat): seq<Option<nat>>
    requires li < |locs| && IsRelative(l)
  {
    locs[..li] + (if l.CondBranch? then [locs[li], locs[li], None] else [locs[li]]) + locs[li + 1..]
  }

  // ---- What holds of every stream on the way -----------------------------------------

  predicate NameBelow(n: Name, serial: nat) {
    n.FarSkip? ==> n.serial < serial
  }

  predicate NamesBelow(l: Line, serial: nat) {
    match l
    case Label(n) => NameBelow(n, serial)
    case Equ(n, _) => n.User?
    case CondBranch(_, x) => NameBelow(x, serial)
    case Bra(x) => x.User?
    case Rcall(x) => x.User?
    case Goto(x) => x.User?
    case Call(x) => x.User?
    case _ => true
  }

  /** No made-up name appears yet. */
  ghost predicate Fresh(ls: seq<Line>) {
    forall k: nat :: k < |ls| ==> NamesBelow(ls[k], 0)
  }

  /** A branch to a made-up label steps over exactly one jump. */
  predicate SkipPlaced(ls: seq<Line>, k: nat)
    requires k < |ls|
  {
    ls[k].CondBranch? && ls[k].target.FarSkip? ==>
      && k + 2 < |ls| && (ls[k + 1].Bra? || ls[k + 1].Goto?) && ls[k + 2] == Label(ls[k].target)
  }

  ghost predicate SkipsUnique(ls: seq<Line>) {
    forall j: nat, k: nat :: j < k < |ls| && ls[j].Label? && ls[j].name.FarSkip? ==> ls[j] != ls[k]
  }

  ghost predicate Tidy(ls: seq<Line>, serial: nat) {
    && (forall k: nat :: k < |ls| ==> NamesBelow(ls[k], serial))
    && (forall k: nat :: k < |ls| ==> SkipPlaced(ls, k))
    && SkipsUnique(ls)
  }

  /** Branches that may still be expanded: a conditional one counts twice. */
  function LineWeight(l: Line): nat {
    match l
    case CondBranch(_, x) => if x.FarSkip? then 0 else 2
    case Bra(_) => 1
    case Rcall(_) => 1
    case _ => 0
  }

  function Weight(ls: seq<Line>): nat {
    if ls == [] then 0 else LineWeight(ls[0]) + Weight(ls[1..])
  }

  lemma {:induction false} WeightConcat(a: seq<Line>, b: seq<Line>)
    ensures Weight(a + b) == Weight(a) + Weight(b)
    decreases |a|
  {
    if a == [] {
      assert a + b == b;
    } else {
      assert (a + b)[1..] == a[1..] + b;
      WeightConcat(a[1..], b);
    }
  }

  /** Every expansion lowers the weight. */
  lemma ExpandWeight(ls: seq<Line>, li: nat, serial: nat)
    requires li < |ls| && IsRelative(ls[li]) && ls[li].target.User?
    ensures Weight(Expand(ls, li, serial)) < Weight(ls)
  {
    hide LineWeight, LongForm, Weight;
    var f := LongForm(ls[li], serial);
    assert ls == ls[..li] + ([ls[li]] + ls[li + 1..]);
    assert Expand(ls, li, serial) == ls[..li] + (f + ls[li + 1..]);
    WeightConcat(ls[..li], [ls[li]] + ls[li + 1..]);
    WeightConcat([ls[li]], ls[li + 1..]);
    WeightConcat(ls[..li], f + ls[li + 1..]);
    WeightConcat(f, ls[li + 1..]);
    FormWeight(ls[li], serial);
  }

  lemma FormWeight(l: Line, serial: nat)
    requires IsRelative(l) && l.target.User?
    ensures Weight(LongForm(l, serial)) < Weight([l])
  {
    var f := LongForm(l, serial);
    assert [l][1..] == [];
    if |f| == 3 {
      assert f[1..] == [f[1], f[2]] && f[1..][1..] == [f[2]] && f[1..][1..][1..] == [];
      assert Weight(f[1..][1..]) == LineWeight(f[2]) == 0;
      assert Weight(f[1..]) == LineWeight(f[1]) == 1;
      assert Weight(f) == 1 && Weight([l]) == 2;
    } else {
      assert f[1..] == [];
    }
  }

  lemma ExpandAt(ls: seq<Line>, li: nat, serial: nat, k: nat)
    requires li < |ls| && IsRelative(ls[li]) && k < |Expand(ls, li, serial)|
    ensures var e := Expand(ls, li, serial); var n := |LongForm(ls[li], serial)|;
            && |e| == |ls| + n - 1
            && (k < li ==> e[k] == ls[k])
            && (li <= k < li + n ==> e[k] == LongForm(ls[li], serial)[k - li])
            && (li + n <= k ==> e[k] == ls[k - n + 1])
  {
  }

  lemma ExpandNames(ls: seq<Line>, li: nat, serial: nat, k: nat)
    requires Tidy(ls, serial) && li < |ls| && IsRelative(ls[li]) && ls[li].target.User?
    requires k < |Expand(ls, li, serial)|
    ensures NamesBelow(Expand(ls, li, serial)[k], serial + 1)
  {
    hide SkipPlaced, SkipsUnique;
    ExpandAt(ls, li, serial, k);
    var n := |LongForm(ls[li], serial)|;
    if k < li {
      assert NamesBelow(ls[k], serial);
    } else if li + n <= k {
      assert NamesBelow(ls[k - n + 1], serial);
    }
  }

  lemma ExpandPlaced(ls: seq<Line>, li: nat, serial: nat, k: nat)
    requires Tidy(ls, serial) && li < |ls| && IsRelative(ls[li]) && ls[li].target.User?
    requires k < |Expand(ls, li, serial)|
    ensures SkipPlaced(Expand(ls, li, serial), k)
  {
    hide SkipsUnique, Expand, NamesBelow;
    var e := Expand(ls, li, serial);
    var n := |LongForm(ls[li], serial)|;
    ExpandAt(ls, li, serial, k);
    if k + 1 < |e| { ExpandAt(ls, li, serial, k + 1); }
    if k + 2 < |e| { ExpandAt(ls, li, serial, k + 2); }
    if k < li {
      assert SkipPlaced(ls, k);
    } else if li + n <= k {
      assert SkipPlaced(ls, k - n + 1);
    }
  }

  lemma ExpandUnique(ls: seq<Line>, li: nat, serial: nat, j: nat, k: nat)
    requires Tidy(ls, serial) && li < |ls| && IsRelative(ls[li]) && ls[li].target.User?
    requires j < k < |Expand(ls, li, serial)|
    requires var l := Expand(ls, li, serial)[j]; l.Label? && l.name.FarSkip?
    ensures Expand(ls, li, serial)[j] != Expand(ls, li, serial)[k]
  {
    hide Expand, SkipPlaced;
    var n := |LongForm(ls[li], serial)|;
    ExpandAt(ls, li, serial, j);
    ExpandAt(ls, li, serial, k);
    var j' := if j < li then j else j - n + 1;
    var k' := if k < li then k else k - n + 1;
    if !(li <= j < li + n) { assert NamesBelow(ls[j'], serial); }
    if !(li <= k < li + n) { assert NamesBelow(ls[k'], serial); }
  }

  lemma ExpandTidy(ls: seq<Line>, li: nat, serial: nat)
    requires Tidy(ls, serial) && li < |ls| && IsRelative(ls[li]) && ls[li].target.User?
    ensures Tidy(Expand(ls, li, serial), serial + 1)
  {
    hide Tidy, NamesBelow, SkipPlaced, Expand;
    var e := Expand(ls, li, serial);
    forall k: nat | k < |e| ensures NamesBelow(e[k], serial + 1) { ExpandNames(ls, li, serial, k); }
    forall k: nat | k < |e| ensures SkipPlaced(e, k) { ExpandPlaced(ls, li, serial, k); }
    forall j: nat, k: nat | j < k < |e| && e[j].Label? && e[j].name.FarSkip? ensures e[j] != e[k] {
      ExpandUnique(ls, li, serial, j, k);
    }
    TidyIs(e, serial + 1);
  }

  lemma TidyIs(ls: seq<Line>, serial: nat)
    requires forall k: nat :: k < |ls| ==> NamesBelow(ls[k], serial)
    requires forall k: nat :: k < |ls| ==> SkipPlaced(ls, k)
    requires SkipsUnique(ls)
    ensures Tidy(ls, serial)
  {
  }

  lemma FreshTidy(ls: seq<Line>)
    requires Fresh(ls)
    ensures Tidy(ls, 0)
  {
    forall k: nat | k < |ls| ensures SkipPlaced(ls, k) { assert NamesBelow(ls[k], 0); }
    forall j: nat | j < |ls| ensures !(ls[j].Label? && ls[j].name.FarSkip?) { assert NamesBelow(ls[j], 0); }
  }

  // ---- A made-up skip is always in range ---------------------------------------------

  lemma {:induction false} FarSymbol(ls: seq<Line>, serial: nat, p: nat, k: nat)
    requires Tidy(ls, serial) && p < k <= |ls| && ls[p].Label? && ls[p].name.FarSkip?
    ensures ls[p].name in SymbolsAt(ls, k) && SymbolsAt(ls, k)[ls[p].name] == AddrAt(ls, p)
    decreases k - p
  {
    hide SkipPlaced;
    var l := ls[k - 1];
    if k - 1 > p {
      FarSymbol(ls, serial, p, k - 1);
      assert NamesBelow(l, serial);
      if Defines(l) { assert l.name != ls[p].name; }
    }
  }

  lemma SkipNear(ls: seq<Line>, serial: nat, k: nat)
    requires Tidy(ls, serial) && k < |ls| && ls[k].CondBranch? && ls[k].target.FarSkip?
    ensures Near(ls[k], AddrAt(ls, k), SymbolsAt(ls, |ls|))
  {
    assert SkipPlaced(ls, k);
    FarSymbol(ls, serial, k + 2, |ls|);
    assert AddrAt(ls, k + 1) == AddrAt(ls, k) + 2;
    assert AddrAt(ls, k + 2) == AddrAt(ls, k + 1) + Size(ls[k + 1]);
  }

  // ---- Which names are defined -------------------------------------------------------

  ghost predicate DefinesName(l: Line, n: Name) {
    Defines(l) && (l.name == n || Alias(l.name) == Some(n))
  }

  ghost predicate Defined(ls: seq<Line>, n: Name) {
    exists k: nat :: k < |ls| && DefinesName(ls[k], n)
  }

  lemma {:induction false} SymbolDefined(ls: seq<Line>, k: nat, n: Name)
    requires k <= |ls|
    ensures n in SymbolsAt(ls, k) <==> Defined(ls[..k], n)
  {
    if k > 0 {
      SymbolDefined(ls, k - 1, n);
      if Defined(ls[..k], n) {
        var j: nat :| j < k && DefinesName(ls[..k][j], n);
        if j < k - 1 { assert DefinesName(ls[..k - 1][j], n); }
      }
      if Defined(ls[..k - 1], n) {
        var j: nat :| j < k - 1 && DefinesName(ls[..k - 1][j], n);
        assert DefinesName(ls[..k][j], n);
      }
      if DefinesName(ls[k - 1], n) { assert DefinesName(ls[..k][k - 1], n); }
    }
  }

  /** Every relative branch has a defined target. */
  ghost predicate Resolved(ls: seq<Line>) {
    forall k: nat :: k < |ls| && IsRelative(ls[k]) ==> Defined(ls, ls[k].target)
  }

  lemma ExpandDefined(ls: seq<Line>, li: nat, serial: nat, x: Name)
    requires li < |ls| && IsRelative(ls[li]) && (x == FarSkip(serial) ==> Defined(ls, x))
    ensures Defined(Expand(ls, li, serial), x) <==> Defined(ls, x)
  {
    hide Expand;
    var e, n := Expand(ls, li, serial), |LongForm(ls[li], serial)|;
    ExpandAt(ls, li, serial, 0);
    if Defined(ls, x) {
      var k: nat :| k < |ls| && DefinesName(ls[k], x);
      var k' := if k < li then k else k + n - 1;
      ExpandAt(ls, li, serial, k');
      assert DefinesName(e[k'], x);
    }
    if Defined(e, x) {
      var k: nat :| k < |e| && DefinesName(e[k], x);
      ExpandAt(ls, li, serial, k);
      assert k < li ==> DefinesName(ls[k], x);
      assert li + n <= k ==> DefinesName(ls[k - n + 1], x);
    }
  }

  /** Expanding a branch whose target is defined loses no undefined target and makes none. */
  lemma ExpandResolved(ls: seq<Line>, li: nat, serial: nat)
    requires Tidy(ls, serial) && li < |ls| && IsRelative(ls[li]) && Defined(ls, ls[li].target)
    ensures Resolved(Expand(ls, li, serial)) <==> Resolved(ls)
  {
    hide Expand, Tidy, Defined;
    var e, n := Expand(ls, li, serial), |LongForm(ls[li], serial)|;
    if Resolved(ls) {
      forall k: nat | k < |e| && IsRelative(e[k]) ensures Defined(e, e[k].target) {
        ExpandAt(ls, li, serial, k);
        if li <= k < li + n && e[k].target == FarSkip(serial) {
          ExpandAt(ls, li, serial, li + 2);
          DefinedAt(e, li + 2, FarSkip(serial));
        } else {
          NotMadeUp(ls, li, serial, k);
          ExpandDefined(ls, li, serial, e[k].target);
        }
      }
    }
    if Resolved(e) {
      forall k: nat | k < |ls| && IsRelative(ls[k]) && k != li ensures Defined(ls, ls[k].target) {
        var k' := if k < li then k else k + n - 1;
        ExpandAt(ls, li, serial, k');
        NotMadeUp(ls, li, serial, k');
        ExpandDefined(ls, li, serial, ls[k].target);
      }
    }
  }

  lemma DefinedAt(ls: seq<Line>, k: nat, n: Name)
    requires k < |ls| && DefinesName(ls[k], n)
    ensures Defined(ls, n)
  {
  }

  lemma NotMadeUp(ls: seq<Line>, li: nat, serial: nat, k: nat)
    requires Tidy(ls, serial) && li < |ls| && IsRelative(ls[li]) && k < |Expand(ls, li, serial)|
    requires var e := Expand(ls, li, serial)[k]; IsRelative(e) && !(k == li && ls[li].CondBranch?)
    ensures Expand(ls, li, serial)[k].target != FarSkip(serial)
  {
    hide SkipPlaced, SkipsUnique, Expand;
    ExpandAt(ls, li, serial, k);
    var n := |LongForm(ls[li], serial)|;
    assert NamesBelow(ls[li], serial);
    if k < li { assert NamesBelow(ls[k], serial); }
    if li + n <= k { assert NamesBelow(ls[k - n + 1], serial); }
  }

  // ---- The fixpoint ------------------------------------------------------------------

  /** The stream and the source locations that run parallel to it. */
  type Stage = (seq<Line>, seq<Option<nat>>)

  /** The branch on line `li` cannot reach its target, and every branch before it can. */
  ghost predicate FirstFarAt(ls: seq<Line>, li: nat) {
    && li < |ls| && IsRelative(ls[li]) && ls[li].target in SymbolsAt(ls, |ls|)
    && !Near(ls[li], AddrAt(ls, li), SymbolsAt(ls, |ls|))
    && forall k: nat :: k < li ==> Near(ls[k], AddrAt(ls, k), SymbolsAt(ls, |ls|))
  }

  /** `b` is `a` with its first far branch, one to a source label, expanded under a new name, its
      location given to every instruction of the long form. */
  ghost predicate Round(a: Stage, b: Stage) {
    exists li: nat, serial: nat :: RoundAt(a, b, li, serial)
  }

  ghost predicate RoundAt(a: Stage, b: Stage, li: nat, serial: nat) {
    && li < |a.0| == |a.1| && IsRelative(a.0[li]) && a.0[li].target.User? && Tidy(a.0, serial)
    && FirstFarAt(a.0, li)
    && b == (Expand(a.0, li, serial), ExpandLocs(a.1, a.0[li], li))
  }

  ghost predicate Rounds(s: seq<Stage>) {
    s != [] && forall k: nat :: k + 1 < |s| ==> RoundOf(s, k)
  }

  ghost predicate RoundOf(s: seq<Stage>, k: nat)
    requires k + 1 < |s|
  {
    Round(s[k], s[k + 1])
  }

  ghost predicate AllInRange(ls: seq<Line>) {
    forall k: nat :: k < |ls| ==> Near(ls[k], AddrAt(ls, k), SymbolsAt(ls, |ls|))
  }

  /** Every relative branch of the stream was looked at, in its turn and at its address. */
  lemma ListedNear(ls: seq<Line>, instrs: seq<(nat, Line)>, symbols: Symbols)
    requires InstrsAre(ls, |ls|, instrs) && symbols == SymbolsAt(ls, |ls|)
    requires forall i :: 0 <= i < |instrs| ==> Near(instrs[i].1, instrs[i].0, symbols)
    ensures AllInRange(ls)
  {
    forall k: nat | k < |ls| ensures Near(ls[k], AddrAt(ls, k), symbols) {
      if IsRelative(ls[k]) {
        assert InstrIs(ls, k, instrs);
        assert Near(instrs[CountInstrs(ls, k)].1, instrs[CountInstrs(ls, k)].0, symbols);
      }
    }
  }

  /** The far branch found in the listing is the one at the mapped-back stream index. */
  lemma FoundAt(ls: seq<Line>, instrs: seq<(nat, Line)>, li: nat)
    requires InstrsAre(ls, |ls|, instrs) && li < |ls| && IsInstr(ls[li])
    ensures CountInstrs(ls, li) < |instrs| && instrs[CountInstrs(ls, li)] == (AddrAt(ls, li), ls[li])
  {
    assert InstrIs(ls, li, instrs);
  }

  lemma {:induction false} CountMonotone(ls: seq<Line>, j: nat, k: nat)
    requires j < k <= |ls| && IsInstr(ls[j])
    ensures CountInstrs(ls, j) < CountInstrs(ls, k)
  {
    if j + 1 < k { CountMonotone(ls, j, k - 1); }
  }

  /** The first far branch of the listing is the first of the stream. */
  lemma FoundFirst(ls: seq<Line>, instrs: seq<(nat, Line)>, li: nat)
    requires InstrsAre(ls, |ls|, instrs) && li < |ls| && IsRelative(ls[li])
    requires ls[li].target in SymbolsAt(ls, |ls|) && !Near(ls[li], AddrAt(ls, li), SymbolsAt(ls, |ls|))
    requires forall i :: 0 <= i < CountInstrs(ls, li) && i < |instrs| ==>
               Near(instrs[i].1, instrs[i].0, SymbolsAt(ls, |ls|))
    ensures FirstFarAt(ls, li)
  {
    forall k: nat | k < li ensures Near(ls[k], AddrAt(ls, k), SymbolsAt(ls, |ls|)) {
      if IsRelative(ls[k]) {
        CountMonotone(ls, k, li);
        assert InstrIs(ls, k, instrs);
        assert Near(instrs[CountInstrs(ls, k)].1, instrs[CountInstrs(ls, k)].0, SymbolsAt(ls, |ls|));
      }
    }
  }

  lemma FarIsUser(ls: seq<Line>, serial: nat, li: nat)
    requires Tidy(ls, serial) && li < |ls| && IsRelative(ls[li])
    requires !Near(ls[li], AddrAt(ls, li), SymbolsAt(ls, |ls|))
    ensures ls[li].target.User?
  {
    hide SkipPlaced, SkipsUnique;
    assert NamesBelow(ls[li], serial);
    if ls[li].CondBranch? && ls[li].target.FarSkip? { SkipNear(ls, serial, li); }
  }

  /** Replace the branch on line `li` of the stream and of its locations. */
  method Splice(ls: seq<Line>, locs: seq<Option<nat>>, li: nat, serial: nat)
      returns (ls': seq<Line>, locs': seq<Option<nat>>)
    requires li < |ls| == |locs| && IsRelative(ls[li])
    ensures ls' == Expand(ls, li, serial) && locs' == ExpandLocs(locs, ls[li], li) && |locs'| == |ls'|
  {
    var l := ls[li];
    if l.CondBranch? {
      ls' := ls[li := CondBranch(Invert(l.cond), FarSkip(serial))];
      ls' := ls'[..li + 1] + [Bra(l.target)] + ls'[li + 1..];
      locs' := locs[..li + 1] + [locs[li]] + locs[li + 1..];
      ls' := ls'[..li + 2] + [Label(FarSkip(serial))] + ls'[li + 2..];
      locs' := locs'[..li + 2] + [None] + locs'[li + 2..];
    } else {
      ls' := ls[li := if l.Rcall? then Call(l.target) else Goto(l.target)];
      locs' := locs;
    }
  }

  /** The relaxation loop. `None` stands for the panic on an undefined label. `rounds` lists
      the streams on the way. */
  method Relax(src: seq<Line>, srcLocs: seq<Option<nat>>)
      returns (r: Option<Stage>, ghost rounds: seq<Stage>)
    requires Fresh(src) && |src| == |srcLocs|
    ensures r.Some? <==> Resolved(src)
    ensures Rounds(rounds) && rounds[0] == (src, srcLocs) && |rounds| <= Weight(src) + 1
    ensures r.Some? ==> rounds[|rounds| - 1] == r.value && AllInRange(r.value.0) && |r.value.1| == |r.value.0|
  {
    var lines, locs, serial := src, srcLocs, 0;
    rounds := [(src, srcLocs)];
    FreshTidy(src);
    hide Fresh, Tidy, Resolved, Round, AllInRange, InstrsAre, Expand, Weight, Near, Defined, FirstFarAt;
    while true
      invariant |locs| == |lines| && Tidy(lines, serial)
      invariant Resolved(src) <==> Resolved(lines)
      invariant Rounds(rounds) && rounds[0] == (src, srcLocs) && rounds[|rounds| - 1] == (lines, locs)
      invariant |rounds| + Weight(lines) <= Weight(src) + 1
      decreases Weight(lines)
    {
      var symbols, _ := ResolveLabels(lines);
      var instrs, _, _ := LayoutAddrs(lines);
      var scan := FirstFar(instrs, symbols);
      match scan {
        case AllNear =>
          ListedNear(lines, instrs, symbols);
          NearResolved(lines);
          return Some((lines, locs)), rounds;
        case Undefined(i) =>
          ListedCount(lines, instrs);
          var li := StreamIndex(lines, i);
          FoundAt(lines, instrs, li);
          NotResolved(lines, li);
          return None, rounds;
        case Far(i) =>
          ListedCount(lines, instrs);
          var li := StreamIndex(lines, i);
          FoundAt(lines, instrs, li);
          FarIs(lines, li);
          FoundFirst(lines, instrs, li);
          FarStep(lines, locs, serial, li, rounds);
          var lines', locs' := Splice(lines, locs, li, serial);
          rounds := rounds + [(lines', locs')];
          lines, locs, serial := lines', locs', serial + 1;
      }
    }
  }

  lemma FarIs(ls: seq<Line>, li: nat)
    requires li < |ls| && IsRelative(ls[li]) && ls[li].target in SymbolsAt(ls, |ls|)
    ensures Near(ls[li], AddrAt(ls, li), SymbolsAt(ls, |ls|))
            <==> InRange(ls[li], AddrAt(ls, li), SymbolsAt(ls, |ls|)[ls[li].target])
  {
  }

  lemma ListedCount(ls: seq<Line>, instrs: seq<(nat, Line)>)
    requires InstrsAre(ls, |ls|, instrs)
    ensures |instrs| == CountInstrs(ls, |ls|)
  {
  }

  lemma NearResolved(ls: seq<Line>)
    requires AllInRange(ls)
    ensures Resolved(ls)
  {
    hide Defined;
    forall k: nat | k < |ls| && IsRelative(ls[k]) ensures Defined(ls, ls[k].target) {
      assert Near(ls[k], AddrAt(ls, k), SymbolsAt(ls, |ls|));
      SymbolDefined(ls, |ls|, ls[k].target);
      assert ls[..|ls|] == ls;
    }
  }

  lemma NotResolved(ls: seq<Line>, li: nat)
    requires li < |ls| && IsRelative(ls[li]) && ls[li].target !in SymbolsAt(ls, |ls|)
    ensures !Resolved(ls)
  {
    SymbolDefined(ls, |ls|, ls[li].target);
    assert ls[..|ls|] == ls;
  }

  /** A round: the weight falls, the stream stays tidy, and definedness is kept. */
  lemma FarStep(ls: seq<Line>, locs: seq<Option<nat>>, serial: nat, li: nat, rounds: seq<Stage>)
    requires Tidy(ls, serial) && FirstFarAt(ls, li)
    requires |locs| == |ls| && Rounds(rounds) && rounds[|rounds| - 1] == (ls, locs)
    ensures var e := Expand(ls, li, serial); var stage := (e, ExpandLocs(locs, ls[li], li));
            && Tidy(e, serial + 1) && Weight(e) < Weight(ls) && (Resolved(e) <==> Resolved(ls))
            && Rounds(rounds + [stage]) && (rounds + [stage])[0] == rounds[0]
  {
    hide Tidy, Expand, Weight, Resolved, Defined, SymbolsAt;
    FarIsUser(ls, serial, li);
    ExpandTidy(ls, li, serial);
    ExpandWeight(ls, li, serial);
    SymbolDefined(ls, |ls|, ls[li].target);
    assert ls[..|ls|] == ls;
    ExpandResolved(ls, li, serial);
    var e := Expand(ls, li, serial);
    var stage := (e, ExpandLocs(locs, ls[li], li));
    var rounds' := rounds + [stage];
    assert RoundAt((ls, locs), stage, li, serial);
    forall k: nat | k + 1 < |rounds'| ensures RoundOf(rounds', k) {
      if k + 1 < |rounds| { assert RoundOf(rounds, k); }
    }
  }
}
