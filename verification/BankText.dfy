/** The assembly text the banking pass reads, as typed lines, split into function regions,
    and what can be observed of a run inside one region. */
module BankText {
  import opened Wrappers
  import opened Devices
  import opened Cfg

  /** A label name; `Internal` names have the shape reserved for branch targets. */
  datatype Name = Entry(id: nat) | Internal(id: nat)

  datatype Line =
    | Blank
    | Directive
    | Table                       // a `.table` directive
    | InlineAsm                   // a whole bracketed block of verbatim assembly
    | Label(name: Name)
    | Return                      // RETURN, RETLW, RETFIE
    | Goto(target: Name)
    | Call(target: Name)
    | Skip(operand: Option<nat>)  // BTFSC, BTFSS, INCFSZ, DECFSZ
    | RpBit(mask: nat, on: bool)  // BSF/BCF STATUS, 5 (mask 1) or 6 (mask 2)
    | MovLb(k: nat)
    | MovStatus                   // MOVWF STATUS
    | MovPcl                      // MOVWF PCL, a computed jump
    | Plain                       // literal operations and operands that are not addresses
    | File(addr: nat)             // a file-register operation on a physical address

  datatype Text = Text(d: Device, lines: seq<Line>)

  // ---- What a line asks of the bank --------------------------------------------------

  /** The unknown bank: any of the 32 the source's bit mask can hold. */
  const ALL_BANKS: set<nat> := UpTo(32)

  function BankLimit(d: Device): nat {
    if d.core.Pic14e? then 32 else 4
  }

  function OperandOf(l: Line): Option<nat> {
    match l
    case Skip(a) => a
    case File(a) => Some(a)
    case _ => None
  }

  /** The bank a line's operand must be accessed in; `None` when any bank does. */
  function OperandBank(d: Device, l: Line): Option<nat>
    requires |d.banks| > 0
  {
    match OperandOf(l)
    case None => None
    case Some(a) => match d.BankOf(a) case Bank(n) => Some(n) case _ => None
  }

  /** The tracked effect of a bank-select line: `None` when it is none on this core,
      `Some(None)` when the bank becomes unknowable. */
  function Effect(d: Device, l: Line): Option<Option<nat>> {
    if d.core.Pic14e? then
      match l case MovLb(k) => Some(Some(if k < 31 then k else 31)) case _ => None
    else
      match l
      case RpBit(m, on) => Some(Some(if on then m else 0))
      case MovStatus => Some(None)
      case _ => None
  }

  /** What one bank-select or operand line may name on this part. */
  predicate LineLegal(d: Device, l: Line)
    requires |d.banks| > 0
  {
    && (OperandOf(l).Some? ==>
          match d.BankOf(OperandOf(l).value)
          case Bank(k) => k < BankLimit(d)
          case AnyBank => true
          case Illegal => false)
    && (l.RpBit? ==> l.mask == 1 || l.mask == 2)
    && (l.MovLb? ==> l.k < 32)
  }

  ghost predicate Legal(t: Text) {
    && |t.d.banks| > 0
    && (forall i :: 0 <= i < |t.lines| ==> LineLegal(t.d, t.lines[i]))
    && UniqueLabels(t.lines)
  }

  // ---- Labels and regions ------------------------------------------------------------

  function LabelPos(ls: seq<Line>, n: Name, i: nat := 0): (r: Option<nat>)
    requires i <= |ls|
    ensures r.Some? ==> i <= r.value < |ls| && ls[r.value] == Label(n)
    ensures r.None? ==> forall k :: i <= k < |ls| ==> ls[k] != Label(n)
    decreases |ls| - i
  {
    if i == |ls| then None
    else if ls[i] == Label(n) then Some(i)
    else LabelPos(ls, n, i + 1)
  }

  ghost predicate UniqueLabels(ls: seq<Line>) {
    forall j, k :: 0 <= j < k < |ls| && ls[j].Label? ==> ls[j] != ls[k]
  }

  lemma LabelPosIs(ls: seq<Line>, k: nat)
    requires UniqueLabels(ls) && k < |ls| && ls[k].Label?
    ensures LabelPos(ls, ls[k].name) == Some(k)
  {
    var r := LabelPos(ls, ls[k].name);
    assert r.Some? && ls[r.value] == ls[k];
  }

  predicate IsCallTarget(ls: seq<Line>, n: Name) {
    exists i :: 0 <= i < |ls| && ls[i] == Call(n)
  }

  /** Named by a GOTO at or after the first label: a join point, not an entry. */
  predicate IsInnerGoto(ls: seq<Line>, n: Name) {
    exists i :: 0 <= i < |ls| && ls[i] == Goto(n) && exists j :: 0 <= j <= i && ls[j].Label?
  }

  predicate BeforeFirstTarget(ls: seq<Line>, i: nat) {
    && (exists k :: 0 <= k < |ls| && ls[k].Label? && IsCallTarget(ls, ls[k].name))
    && (forall k :: 0 <= k <= i && k < |ls| && ls[k].Label? ==> !IsCallTarget(ls, ls[k].name))
  }

  /** Line `i` opens a region: a CALL target, or an entry label ahead of the first one. */
  predicate IsOpener(ls: seq<Line>, i: nat) {
    && i < |ls|
    && ls[i].Label?
    && (IsCallTarget(ls, ls[i].name)
        || (BeforeFirstTarget(ls, i) && ls[i].name.Entry? && !IsInnerGoto(ls, ls[i].name)))
  }

  /** The first opener at or after `i`, or the end of the text. */
  function NextOpener(ls: seq<Line>, i: nat): (r: nat)
    requires i <= |ls|
    ensures i <= r <= |ls| && (r < |ls| ==> IsOpener(ls, r))
    ensures forall k :: i <= k < r ==> !IsOpener(ls, k)
    decreases |ls| - i
  {
    if i == |ls| || IsOpener(ls, i) then i else NextOpener(ls, i + 1)
  }

  /** The region opened at `lo` ends where the next one opens. */
  function RegionEnd(ls: seq<Line>, lo: nat): nat
    requires lo < |ls|
  {
    NextOpener(ls, lo + 1)
  }

  function FirstOpener(ls: seq<Line>): nat {
    NextOpener(ls, 0)
  }

  /** The region entered by calling `n`. */
  function RegionOf(ls: seq<Line>, n: Name): (r: Option<nat>)
    ensures r.Some? ==> IsOpener(ls, r.value) && ls[r.value] == Label(n)
  {
    var p := LabelPos(ls, n);
    if p.Some? && IsOpener(ls, p.value) then p else None
  }

  /** The opener of the region holding line `i`, for lines not before the first opener. */
  function OpenerOf(ls: seq<Line>, i: nat): (r: nat)
    requires FirstOpener(ls) <= i < |ls|
    ensures r <= i < RegionEnd(ls, r) && IsOpener(ls, r)
    decreases i
  {
    if IsOpener(ls, i) then i
    else
      SameRegionBefore(ls, i);
      OpenerOf(ls, i - 1)
  }

  lemma SameRegionBefore(ls: seq<Line>, i: nat)
    requires FirstOpener(ls) <= i < |ls| && !IsOpener(ls, i)
    ensures i > 0 && FirstOpener(ls) <= i - 1
    ensures forall r :: 0 <= r <= i - 1 && i - 1 < RegionEnd(ls, r) ==> i < RegionEnd(ls, r)
  {
  }

  /** The first line at or after `i`, below `hi`, that is not a label. */
  function AfterLabels(ls: seq<Line>, i: nat, hi: nat): (r: nat)
    requires i <= hi <= |ls|
    ensures i <= r <= hi && (r < hi ==> !ls[r].Label?)
    ensures forall k :: i <= k < r ==> ls[k].Label?
    decreases hi - i
  {
    if i < hi && ls[i].Label? then AfterLabels(ls, i + 1, hi) else i
  }

  // ---- Observations ------------------------------------------------------------------

  /** What can be seen of a run that enters a region: it returns, it passes a label, or it
      leaves the region without returning. */
  datatype Obs = Returned(bank: nat) | AtLabel(pos: nat, bank: nat) | Left

  /** The bank after a line's operand has been reached in its own bank. */
  function Pinned(d: Device, l: Line, b: nat): nat
    requires |d.banks| > 0
  {
    match OperandBank(d, l) case Some(k) => k case None => b
  }

  /** What line `i` itself shows in the region `[lo, hi)`, entered with bank `b`. */
  ghost predicate SeenHere(t: Text, lo: nat, hi: nat, i: nat, b: nat, o: Obs)
    requires |t.d.banks| > 0 && lo <= hi <= |t.lines|
  {
    if !(lo <= i < hi) then o == Left
    else
      match t.lines[i]
      case Label(_) => o == AtLabel(i, b)
      case Return => o == Returned(b)
      case Goto(x) => LabelPos(t.lines, x).None? && o == Left
      case Skip(_) =>
        o.AtLabel? && o.bank == Pinned(t.d, t.lines[i], b) && i < o.pos < AfterLabels(t.lines, i + 1, hi)
      case _ => false
  }

  /** A line that neither calls nor jumps can turn bank `b` into `b'`. */
  ghost predicate BankAfter(d: Device, l: Line, b: nat, b': nat)
    requires |d.banks| > 0
  {
    match Effect(d, l)
    case Some(Some(k)) => b' == k
    case Some(None) => b' in ALL_BANKS
    case None => b' == Pinned(d, l, b)
  }

  /** Where line `i` can pass control within the region, and with which bank, as if every
      operand found its own bank. Calls are stepped over; `n` bounds the callee's run. */
  ghost predicate Next(t: Text, hi: nat, i: nat, b: nat, i': nat, b': nat, n: nat)
    requires |t.d.banks| > 0 && i < hi <= |t.lines|
    decreases n, 2
  {
    match t.lines[i]
    case Return => false
    case Goto(x) => LabelPos(t.lines, x) == Some(i') && b' == b
    case Call(x) => i' == i + 1 && b' in ALL_BANKS && CallEnds(t, x, b, b', n)
    case Skip(_) =>
      b' == Pinned(t.d, t.lines[i], b)
      && (i' == AfterLabels(t.lines, i + 1, hi) || i' == AfterLabels(t.lines, i + 1, hi) + 1)
    case InlineAsm => i' == i + 1 && b' in ALL_BANKS
    case l => i' == i + 1 && BankAfter(t.d, l, b, b')
  }

  /** Running from line `i` with bank `b` can show `o` within `n` steps. */
  ghost predicate Sees(t: Text, lo: nat, hi: nat, i: nat, b: nat, o: Obs, n: nat)
    requires |t.d.banks| > 0 && lo <= hi <= |t.lines|
    decreases n, 0
  {
    n > 0 &&
    (|| SeenHere(t, lo, hi, i, b, o)
     || (lo <= i < hi && SeesVia(t, lo, hi, i, b, o, n - 1)))
  }

  /** Some next line can show `o` within `m` steps. */
  ghost predicate SeesVia(t: Text, lo: nat, hi: nat, i: nat, b: nat, o: Obs, m: nat)
    requires |t.d.banks| > 0 && lo <= i < hi <= |t.lines|
    decreases m, 3
  {
    exists i': nat, b': nat :: Next(t, hi, i, b, i', b', m) && Sees(t, lo, hi, i', b', o, m)
  }

  /** A call of `x` entered with bank `b` can come back with bank `m`: its region returns so,
      or control leaves the region and anything may come back. */
  ghost predicate CallEnds(t: Text, x: Name, b: nat, m: nat, n: nat)
    requires |t.d.banks| > 0
    decreases n, 1
  {
    match RegionOf(t.lines, x)
    case None => true
    case Some(lo) =>
      || Sees(t, lo, RegionEnd(t.lines, lo), lo, b, Returned(m), n)
      || Sees(t, lo, RegionEnd(t.lines, lo), lo, b, Left, n)
  }

  /** More steps see at least as much. */
  lemma {:induction false} SeesMore(t: Text, lo: nat, hi: nat, i: nat, b: nat, o: Obs, n: nat)
    requires |t.d.banks| > 0 && lo <= hi <= |t.lines| && Sees(t, lo, hi, i, b, o, n)
    ensures Sees(t, lo, hi, i, b, o, n + 1)
    decreases n, 0
  {
    if !SeenHere(t, lo, hi, i, b, o) {
      var m: nat := n - 1;
      assert SeesVia(t, lo, hi, i, b, o, m);
      var i': nat, b': nat :| Next(t, hi, i, b, i', b', m) && Sees(t, lo, hi, i', b', o, m);
      NextMore(t, hi, i, b, i', b', m);
      SeesMore(t, lo, hi, i', b', o, m);
      assert SeesVia(t, lo, hi, i, b, o, n);
    }
  }

  lemma {:induction false} NextMore(t: Text, hi: nat, i: nat, b: nat, i': nat, b': nat, n: nat)
    requires |t.d.banks| > 0 && i < hi <= |t.lines| && Next(t, hi, i, b, i', b', n)
    ensures Next(t, hi, i, b, i', b', n + 1)
    decreases n, 2
  {
    if t.lines[i].Call? { CallEndsMore(t, t.lines[i].target, b, b', n); }
  }

  lemma {:induction false} CallEndsMore(t: Text, x: Name, b: nat, m: nat, n: nat)
    requires |t.d.banks| > 0 && CallEnds(t, x, b, m, n)
    ensures CallEnds(t, x, b, m, n + 1)
    decreases n, 1
  {
    match RegionOf(t.lines, x)
    case None =>
    case Some(lo) =>
      var hi := RegionEnd(t.lines, lo);
      if Sees(t, lo, hi, lo, b, Returned(m), n) {
        SeesMore(t, lo, hi, lo, b, Returned(m), n);
      } else {
        SeesMore(t, lo, hi, lo, b, Left, n);
      }
  }

  lemma {:induction false} SeesWithin(t: Text, lo: nat, hi: nat, i: nat, b: nat, o: Obs, n: nat, n': nat)
    requires |t.d.banks| > 0 && lo <= hi <= |t.lines| && Sees(t, lo, hi, i, b, o, n) && n <= n'
    ensures Sees(t, lo, hi, i, b, o, n')
    decreases n' - n
  {
    if n < n' {
      SeesMore(t, lo, hi, i, b, o, n);
      SeesWithin(t, lo, hi, i, b, o, n + 1, n');
    }
  }

  lemma {:induction false} CallEndsWithin(t: Text, x: Name, b: nat, m: nat, n: nat, n': nat)
    requires |t.d.banks| > 0 && CallEnds(t, x, b, m, n) && n <= n'
    ensures CallEnds(t, x, b, m, n')
    decreases n' - n
  {
    if n < n' {
      CallEndsMore(t, x, b, m, n);
      CallEndsWithin(t, x, b, m, n + 1, n');
    }
  }

  /** One step can be put in front of an observation. */
  lemma SeesStep(t: Text, lo: nat, hi: nat, i: nat, b: nat, i': nat, b': nat, o: Obs, k: nat, n: nat)
    requires |t.d.banks| > 0 && lo <= i < hi <= |t.lines|
    requires Next(t, hi, i, b, i', b', k) && Sees(t, lo, hi, i', b', o, n)
    ensures Sees(t, lo, hi, i, b, o, Max(k, n) + 1)
  {
    var m := Max(k, n);
    SeesWithin(t, lo, hi, i', b', o, n, m);
    if t.lines[i].Call? { CallEndsWithin(t, t.lines[i].target, b, b', k, m); }
    assert Next(t, hi, i, b, i', b', m);
    assert SeesVia(t, lo, hi, i, b, o, m);
  }
}
