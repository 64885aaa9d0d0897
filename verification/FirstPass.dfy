/** Pass 1 of the PIC14 assemblers over typed lines: addresses, symbols, and the layout
    assertions that make it panic: a table that crosses its 256-word window, and an origin behind
    the address already reached. */
module FirstPass {
  import Stream

  datatype Line =
    | Blank                               // blank, comment, `list`, `radix`
    | Org(target: nat)
    | End
    | Label(name: string, instr: bool)    // `instr`: an instruction follows on the same line
    | Equ(name: string, val: nat)
    | Align(n: nat)
    | Table(size: nat)
    | Instr

  // ---- Rounding up -------------------------------------------------------------------

  /** `a & !b`. */
  function AndNot(a: nat, b: nat): nat
    decreases a
  {
    if a == 0 then 0 else a % 2 * (1 - b % 2) + 2 * AndNot(a / 2, b / 2)
  }

  function AlignUp(org: nat, n: nat): nat
    requires n > 0
  {
    AndNot(org + n - 1, n - 1)
  }

  predicate IsPowerOfTwo(n: nat) {
    n == 1 || (n > 0 && n % 2 == 0 && IsPowerOfTwo(n / 2))
  }

  /** Clearing the bits below a power of two rounds down to its multiple. */
  lemma {:induction false} ClearLow(a: nat, n: nat) returns (q: nat)
    requires IsPowerOfTwo(n)
    ensures AndNot(a, n - 1) == n * q && n * q <= a < n * q + n
    decreases a
  {
    if a == 0 {
      q := 0;
    } else if n == 1 {
      q := ClearLow(a / 2, 1);
      q := a;
    } else {
      var h := n / 2;
      q := ClearLow(a / 2, h);
      assert (n - 1) % 2 == 1 && (n - 1) / 2 == h - 1;
      Doubled(h, q);
    }
  }

  lemma Doubled(h: nat, q: nat)
    ensures (2 * h) * q == 2 * (h * q)
  {
  }

  ghost predicate Multiple(a: nat, n: nat) {
    exists q: nat :: a == n * q
  }

  /** For a power of two, the least multiple not below `org`. */
  lemma AlignUpIs(org: nat, n: nat)
    requires IsPowerOfTwo(n)
    ensures org <= AlignUp(org, n) < org + n && Multiple(AlignUp(org, n), n)
    ensures forall m: nat :: org <= m && Multiple(m, n) ==> AlignUp(org, n) <= m
  {
    assert n > 0;
    hide IsPowerOfTwo, AndNot;
    var q := ClearLow(org + n - 1, n);
    forall m: nat | org <= m && Multiple(m, n) ensures n * q <= m {
      var p: nat :| m == n * p;
      NextMultiple(n, p, q);
    }
  }

  lemma NextMultiple(n: nat, p: nat, q: nat)
    ensures p >= q ==> n * p >= n * q
    ensures p < q ==> n * p + n <= n * q
  {
    if p < q {
      assert n * q - n * (p + 1) == n * (q - (p + 1));
    } else {
      assert n * p - n * q == n * (p - q);
    }
  }

  lemma TwiceIsPower(n: nat)
    requires IsPowerOfTwo(n)
    ensures IsPowerOfTwo(2 * n)
  {
  }

  lemma Power256()
    ensures IsPowerOfTwo(256)
  {
    hide IsPowerOfTwo;
    TwoIsPower();
    TwiceIsPower(2);
    TwiceIsPower(4);
    TwiceIsPower(8);
    TwiceIsPower(16);
    TwiceIsPower(32);
    TwiceIsPower(64);
    TwiceIsPower(128);
  }

  lemma TwoIsPower()
    ensures IsPowerOfTwo(2)
  {
    assert IsPowerOfTwo(1);
  }

  lemma Align256(org: nat)
    ensures org <= AlignUp(org, 256) < org + 256 && AlignUp(org, 256) % 256 == 0
    ensures org % 256 == 0 ==> AlignUp(org, 256) == org
  {
    hide IsPowerOfTwo, AndNot;
    Power256();
    var q := ClearLow(org + 255, 256);
  }

  // ---- The walk ----------------------------------------------------------------------

  datatype Fault = BackwardOrg | BadAlign | TableCrosses

  /** What pass 1 knows after some lines; `faults` are the assertions tripped on the way. */
  datatype Walk = Walk(org: nat, symbols: Stream.Symbols, ended: bool, faults: set<Fault>)

  /** A table must not cross its 256-word window; a chunked one must start a window. */
  predicate TableFits(org: nat, size: nat) {
    if size <= 255 then org % 256 + size <= 256 else org % 256 == 0
  }

  /** The word a table reader fetches for entry `i`: the window is that of the base, one further
      for every 256 entries, and the low byte is added without a carry into it. */
  function Fetched(org: nat, i: nat): nat {
    256 * (org / 256 + i / 256) + (org % 256 + i % 256) % 256
  }

  /** A table fits exactly when every entry is fetched from its own word. */
  lemma TableFitsIs(org: nat, size: nat)
    ensures TableFits(org, size) <==> forall i: nat :: i < size ==> Fetched(org, i) == org + i
  {
    if !TableFits(org, size) {
      var i := 256 - org % 256;
      if i < size && i < 256 {
        assert Fetched(org, i) != org + i;
      }
    }
  }

  function Step(w: Walk, l: Line): Walk {
    if w.ended then w
    else
      match l
      case Blank => w
      case Org(t) => w.(org := t, faults := if t < w.org then w.faults + {BackwardOrg} else w.faults)
      case End => w.(ended := true)
      case Label(n, instr) => w.(symbols := Stream.InsertLabel(w.symbols, Stream.User(n), w.org),
        org := if instr then w.org + 1 else w.org)
      case Equ(n, v) => w.(symbols := Stream.InsertLabel(w.symbols, Stream.User(n), v))
      case Align(n) =>
        if n >= 2 && IsPowerOfTwo(n) then w.(org := AlignUp(w.org, n))
        else w.(org := if n > 0 then AlignUp(w.org, n) else w.org, faults := w.faults + {BadAlign})
      case Table(size) => if TableFits(w.org, size) then w else w.(faults := w.faults + {TableCrosses})
      case Instr => w.(org := w.org + 1)
  }

  const START := Walk(0, map[], false, {})

  function After(ls: seq<Line>): Walk {
    if ls == [] then START else Step(After(ls[..|ls| - 1]), ls[|ls| - 1])
  }

  function AddrAt(ls: seq<Line>, k: nat): nat
    requires k <= |ls|
  {
    After(ls[..k]).org
  }

  lemma AfterSnoc(ls: seq<Line>, l: Line)
    ensures After(ls + [l]) == Step(After(ls), l)
  {
    assert (ls + [l])[..|ls|] == ls;
  }

  /** Faults and the end stay. */
  lemma {:induction false} FaultsStay(ls: seq<Line>, k: nat)
    requires k <= |ls|
    ensures After(ls[..k]).faults <= After(ls).faults
    ensures After(ls[..k]).ended ==> After(ls) == After(ls[..k])
    decreases |ls| - k
  {
    hide AlignUp, IsPowerOfTwo, Stream.InsertLabel;
    if k < |ls| {
      assert ls[..k + 1] == ls[..k] + [ls[k]];
      AfterSnoc(ls[..k], ls[k]);
      FaultsStay(ls, k + 1);
    } else {
      assert ls[..k] == ls;
    }
  }

  datatype Result = Ok(instrs: seq<nat>, symbols: Stream.Symbols, org: nat) | Err(fault: Fault)

  /** The word addresses of the instructions of the first `k` lines. */
  function InstrAddrs(ls: seq<Line>, k: nat): seq<nat>
    requires k <= |ls|
  {
    if k == 0 then []
    else
      var l := ls[k - 1];
      InstrAddrs(ls, k - 1)
      + if !After(ls[..k - 1]).ended && (l.Instr? || (l.Label? && l.instr)) then [AddrAt(ls, k - 1)] else []
  }

  /** Pass 1: it stops at the first tripped assertion. */
  method AssembleFirstPass(ls: seq<Line>) returns (r: Result)
    ensures r.Ok? <==> After(ls).faults == {}
    ensures r.Err? ==> r.fault in After(ls).faults
    ensures r.Ok? ==> r.symbols == After(ls).symbols && r.org == After(ls).org && r.instrs == InstrAddrs(ls, |ls|)
  {
    hide IsPowerOfTwo, Stream.InsertLabel, AlignUp;
    var symbols: Stream.Symbols, org: nat, instrs: seq<nat> := map[], 0, [];
    var k := 0;
    while k < |ls|
      invariant k <= |ls| && After(ls[..k]) == Walk(org, symbols, false, {})
      invariant instrs == InstrAddrs(ls, k)
    {
      assert ls[..k + 1] == ls[..k] + [ls[k]];
      AfterSnoc(ls[..k], ls[k]);
      FaultsStay(ls, k + 1);
      match ls[k] {
        case Blank =>
        case Org(t) =>
          if t < org { return Err(BackwardOrg); }
          org := t;
        case End =>
          EndedAddrs(ls, k + 1);
          return Ok(instrs, symbols, org);
        case Label(n, instr) =>
          symbols := Stream.InsertLabel(symbols, Stream.User(n), org);
          if instr {
            instrs := instrs + [org];
            org := org + 1;
          }
        case Equ(n, v) =>
          symbols := Stream.InsertLabel(symbols, Stream.User(n), v);
        case Align(n) =>
          if !(n >= 2 && IsPowerOfTwo(n)) { return Err(BadAlign); }
          org := AlignUp(org, n);
        case Table(size) =>
          if !TableFits(org, size) { return Err(TableCrosses); }
        case Instr =>
          instrs := instrs + [org];
          org := org + 1;
      }
      k := k + 1;
    }
    assert ls[..|ls|] == ls;
    return Ok(instrs, symbols, org);
  }

  lemma {:induction false} EndedAddrs(ls: seq<Line>, k: nat)
    requires k <= |ls| && After(ls[..k]).ended
    ensures InstrAddrs(ls, |ls|) == InstrAddrs(ls, k)
    decreases |ls| - k
  {
    if k < |ls| {
      assert ls[..k + 1] == ls[..k] + [ls[k]];
      AfterSnoc(ls[..k], ls[k]);
      EndedAddrs(ls, k + 1);
    }
  }
}
