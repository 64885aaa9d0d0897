/** The words of PIC18 branches, a decoder for them, and what a relaxed stream's branches reach. */
module Encode {
  import opened Stream
  import opened Relax
  import opened RelaxMeaning

  // ---- Words -------------------------------------------------------------------------

  function CondIndex(c: Cond): nat {
    2 * (match c.flag case Zero => 0 case Carry => 1 case Overflow => 2 case Negative => 3)
    + if c.want then 0 else 1
  }

  function CondOf(i: nat): Cond {
    Cond(if i / 2 == 0 then Zero else if i / 2 == 1 then Carry else if i / 2 == 2 then Overflow else Negative,
         i % 2 == 0)
  }

  /** A relative branch at byte address `addr`: an 8- or 11-bit two's complement word offset. */
  function EncodeRelative(l: Line, addr: nat, target: nat): nat
    requires IsRelative(l) && InRange(l, addr, target)
  {
    var n := Offset(addr, target);
    match l
    case CondBranch(c, _) => 0xE000 + 0x100 * CondIndex(c) + n % 0x100
    case Bra(_) => 0xD000 + n % 0x800
    case Rcall(_) => 0xD800 + n % 0x800
  }

  /** `GOTO` and `CALL`: a 20-bit word address over two words. */
  function EncodeAbsolute(l: Line, target: nat): (nat, nat)
    requires l.Goto? || l.Call?
  {
    var k := target / 2;
    ((if l.Goto? then 0xEF00 else 0xEC00) + k % 0x100, 0xF000 + k / 0x100 % 0x1000)
  }

  datatype Decoded = DCond(cond: Cond, offset: int) | DBra(offset: int) | DRcall(offset: int)
                   | DGoto(word: nat) | DCall(word: nat) | Unknown

  function Signed(v: nat, bits: nat): int {
    if v >= bits / 2 then v - bits else v
  }

  /** What the processor makes of a word, and of the one behind it. */
  function Decode(w: nat, w': nat): Decoded {
    if w / 0x800 == 0x1A then DBra(Signed(w % 0x800, 0x800))
    else if w / 0x800 == 0x1B then DRcall(Signed(w % 0x800, 0x800))
    else if w / 0x800 == 0x1C then DCond(CondOf(w / 0x100 % 8), Signed(w % 0x100, 0x100))
    else if w / 0x100 == 0xEF && w' / 0x1000 == 0xF then DGoto(w % 0x100 + 0x100 * (w' % 0x1000))
    else if w / 0x100 == 0xEC && w' / 0x1000 == 0xF then DCall(w % 0x100 + 0x100 * (w' % 0x1000))
    else Unknown
  }

  lemma SignedOf(n: int)
    ensures -0x80 <= n < 0x80 ==> Signed(n % 0x100, 0x100) == n
    ensures -0x400 <= n < 0x400 ==> Signed(n % 0x800, 0x800) == n
  {
  }

  /** In range, the offset field decodes to the very offset, kind and condition. */
  lemma RelativeDecodes(l: Line, addr: nat, target: nat, w': nat)
    requires IsRelative(l) && InRange(l, addr, target)
    ensures Decode(EncodeRelative(l, addr, target), w')
         == (match l
             case CondBranch(c, _) => DCond(c, Offset(addr, target))
             case Bra(_) => DBra(Offset(addr, target))
             case Rcall(_) => DRcall(Offset(addr, target)))
  {
    var n := Offset(addr, target);
    if l.CondBranch? {
      SignedOf(n);
      CondWord(l.cond, n % 0x100);
    } else {
      SignedOf(n);
    }
  }

  /** In range are exactly the branches for which some word holds the offset. */
  lemma InRangeExact(l: Line, addr: nat, target: nat, w': nat)
    requires IsRelative(l)
    ensures InRange(l, addr, target) <==>
      exists w: nat :: w < 0x1_0000 && Decode(w, w')
        == (match l
            case CondBranch(c, _) => DCond(c, Offset(addr, target))
            case Bra(_) => DBra(Offset(addr, target))
            case Rcall(_) => DRcall(Offset(addr, target)))
  {
    if InRange(l, addr, target) {
      RelativeDecodes(l, addr, target, w');
      assert EncodeRelative(l, addr, target) < 0x1_0000;
    }
  }

  lemma CondWord(c: Cond, v: nat)
    requires v < 0x100
    ensures var w := 0xE000 + 0x100 * CondIndex(c) + v;
            w / 0x800 == 0x1C && w % 0x100 == v && CondOf(w / 0x100 % 8) == c
  {
    var i := CondIndex(c);
    assert 0xE000 + 0x100 * i + v == 0x100 * (0xE0 + i) + v;
    assert (0xE000 + 0x100 * i + v) / 0x100 == 0xE0 + i;
  }

  lemma AbsoluteDecodes(l: Line, target: nat)
    requires (l.Goto? || l.Call?) && target / 2 < 0x10_0000
    ensures var (w, w') := EncodeAbsolute(l, target);
            Decode(w, w') == if l.Goto? then DGoto(target / 2) else DCall(target / 2)
  {
  }

  // ---- Where the relaxed stream's branches go ----------------------------------------

  /** The byte address a decoded branch at `addr` transfers to. */
  function Destination(d: Decoded, addr: nat): int {
    match d
    case DCond(_, n) => 2 * (addr / 2 + 1 + n)
    case DBra(n) => 2 * (addr / 2 + 1 + n)
    case DRcall(n) => 2 * (addr / 2 + 1 + n)
    case DGoto(w) => 2 * w
    case DCall(w) => 2 * w
    case Unknown => 0
  }

  /** The first word of the branch on line `k`, once every branch is in range. */
  function BranchWords(ls: seq<Line>, k: nat): (nat, nat)
    requires k < |ls| && IsJump(ls[k]) && ls[k].target in SymbolsAt(ls, |ls|)
    requires Near(ls[k], AddrAt(ls, k), SymbolsAt(ls, |ls|))
  {
    var target := SymbolsAt(ls, |ls|)[ls[k].target];
    if IsRelative(ls[k]) then (EncodeRelative(ls[k], AddrAt(ls, k), target), 0)
    else EncodeAbsolute(ls[k], target)
  }

  /** Data in whole words: labels are at even addresses exactly when nothing breaks parity. */
  ghost predicate WordAligned(ls: seq<Line>) {
    forall k: nat :: k < |ls| ==> (ls[k].Db? ==> ls[k].count % 2 == 0) && (ls[k].Org? ==> ls[k].addr % 2 == 0)
  }

  lemma {:induction false} AddrEven(ls: seq<Line>, k: nat)
    requires WordAligned(ls) && k <= |ls|
    ensures AddrAt(ls, k) % 2 == 0
  {
    if k > 0 { AddrEven(ls, k - 1); }
  }

  /** Every branch of a relaxed stream encodes without tripping its range check, and its words
      decode to the word its label is in: the label itself exactly when that is even. */
  lemma BranchReachesLabel(ls: seq<Line>, k: nat)
    requires AllInRange(ls) && Distinct(ls) && JumpsLabelled(ls) && k < |ls| && IsJump(ls[k])
    requires IsRelative(ls[k]) || AddrAt(ls, LabelOf(ls, ls[k].target).value) < 0x20_0000
    ensures ls[k].target in SymbolsAt(ls, |ls|) && Near(ls[k], AddrAt(ls, k), SymbolsAt(ls, |ls|))
    ensures var (w, w') := BranchWords(ls, k); var goal := AddrAt(ls, LabelOf(ls, ls[k].target).value);
            && Destination(Decode(w, w'), AddrAt(ls, k)) / 2 == goal / 2
            && (Destination(Decode(w, w'), AddrAt(ls, k)) == goal <==> goal % 2 == 0)
  {
    var l := ls[k];
    var p := LabelOf(ls, l.target).value;
    SymbolValue(ls, l.target);
    assert Near(l, AddrAt(ls, k), SymbolsAt(ls, |ls|));
    hide AllInRange, Distinct, JumpsLabelled, Definer, SymbolsAt, Near, Decode, EncodeRelative, EncodeAbsolute;
    var target := AddrAt(ls, p);
    assert SymbolsAt(ls, |ls|)[l.target] == target;
    if IsRelative(l) {
      NearIs(l, AddrAt(ls, k), SymbolsAt(ls, |ls|));
      RelativeDecodes(l, AddrAt(ls, k), target, 0);
    } else {
      AbsoluteDecodes(l, target);
    }
  }

  lemma NearIs(l: Line, addr: nat, symbols: Symbols)
    requires Near(l, addr, symbols) && IsRelative(l)
    ensures l.target in symbols && InRange(l, addr, symbols[l.target])
  {
  }
}
