/** Runs of constant stores, replaced by one copy from a flash table: what a run is, what its
    table holds, when the conversion pays, and that the copy leaves memory as the stores it stands
    for did, whatever memory held before. */
module StoreRuns {
  import opened Wrappers

  type Byte = b: nat | b < 0x100

  /** An object in memory; distinct roots do not alias. */
  datatype Root = Slot(id: nat) | Global(id: nat)

  /** A byte a store writes: a literal, or one half of a flash symbol's address. */
  datatype MemByte = Lit(v: Byte) | Half(sym: nat, high: bool)

  datatype Table = Table(bytes: seq<Byte>, refs: seq<(nat, nat)>)

  datatype Inst =
    | Store(addr: Option<(Root, nat)>, payload: Option<seq<MemByte>>, op: nat)
    | Silent(op: nat)      // register work: no memory is read or written
    | Opaque(op: nat)      // anything else
    | Setup                // computes the copy's destination into a register of its own
    | Copy(root: Root, off: nat, table: Table)

  const MIN_BYTES := 10
  const MAX_COPY := 255

  // ---- Running a block ---------------------------------------------------------------

  type Memory = map<(Root, nat), MemByte>

  datatype State<R> = State(mem: Memory, regs: R)

  datatype Machine<!R> = Machine(quiet: (nat, R) -> R, loud: (nat, Memory, R) -> (Memory, R))

  function Write(mem: Memory, root: Root, off: nat, bs: seq<MemByte>): Memory {
    if bs == [] then mem else Write(mem, root, off, bs[..|bs| - 1])[(root, off + |bs| - 1) := bs[|bs| - 1]]
  }

  /** What the backend lays down for byte `k` of a table: a symbol's halves alternate, low first. */
  function TableByte(t: Table, k: nat): MemByte
    requires k < |t.bytes|
  {
    match RefAt(t.refs, k)
    case None => Lit(t.bytes[k])
    case Some(sym) => Half(sym, RefsBelow(t.refs, sym, k) % 2 == 1)
  }

  function RefAt(refs: seq<(nat, nat)>, k: nat): Option<nat> {
    if refs == [] then None else if refs[0].0 == k then Some(refs[0].1) else RefAt(refs[1..], k)
  }

  function RefsBelow(refs: seq<(nat, nat)>, sym: nat, k: nat): nat {
    if refs == [] then 0
    else (if refs[0].0 < k && refs[0].1 == sym then 1 else 0) + RefsBelow(refs[1..], sym, k)
  }

  function TableBytes(t: Table): seq<MemByte> {
    seq(|t.bytes|, k requires 0 <= k < |t.bytes| => TableByte(t, k))
  }

  function Step<R>(m: Machine<R>, i: Inst, s: State<R>): State<R> {
    match i
    case Store(Some((root, off)), Some(bs), _) => s.(mem := Write(s.mem, root, off, bs))
    case Store(_, _, op) => var (mem, regs) := m.loud(op, s.mem, s.regs); State(mem, regs)
    case Silent(op) => s.(regs := m.quiet(op, s.regs))
    case Opaque(op) => var (mem, regs) := m.loud(op, s.mem, s.regs); State(mem, regs)
    case Setup => s
    case Copy(root, off, table) => s.(mem := Write(s.mem, root, off, TableBytes(table)))
  }

  function Exec<R>(m: Machine<R>, insts: seq<Inst>, s: State<R>): State<R>
    decreases |insts|
  {
    if insts == [] then s else Step(m, insts[|insts| - 1], Exec(m, insts[..|insts| - 1], s))
  }

  lemma {:induction false} ExecConcat<R>(m: Machine<R>, a: seq<Inst>, b: seq<Inst>, s: State<R>)
    ensures Exec(m, a + b, s) == Exec(m, b, Exec(m, a, s))
    decreases |b|
  {
    if b == [] {
      assert a + b == a;
    } else {
      assert (a + b)[..|a + b| - 1] == a + b[..|b| - 1];
      ExecConcat(m, a, b[..|b| - 1], s);
    }
  }

  lemma {:induction false} WriteConcat(mem: Memory, root: Root, off: nat, a: seq<MemByte>, b: seq<MemByte>)
    ensures Write(Write(mem, root, off, a), root, off + |a|, b) == Write(mem, root, off, a + b)
    decreases |b|
  {
    if b == [] {
      assert a + b == a;
    } else {
      assert (a + b)[..|a + b| - 1] == a + b[..|b| - 1];
      WriteConcat(mem, root, off, a, b[..|b| - 1]);
    }
  }

  // ---- Runs --------------------------------------------------------------------------

  datatype Member = Member(idx: nat, bytes: seq<MemByte>)

  /** An open run: constant stores to consecutive addresses of one root. */
  datatype Run = Run(root: Root, start: nat, next: nat, members: seq<Member>)

  function Payload(ms: seq<Member>): seq<MemByte> {
    if ms == [] then [] else Payload(ms[..|ms| - 1]) + ms[|ms| - 1].bytes
  }

  /** A store's payload: literal bytes, or the two halves of one symbol. */
  predicate PayloadOk(bs: seq<MemByte>) {
    || (forall k :: 0 <= k < |bs| ==> bs[k].Lit?)
    || (|bs| == 2 && bs[0].Half? && bs == [Half(bs[0].sym, false), Half(bs[0].sym, true)])
  }

  ghost predicate IsMember(ms: seq<Member>, i: nat) {
    exists k :: 0 <= k < |ms| && ms[k].idx == i
  }

  /** Member `k` stores the run's next bytes. */
  ghost predicate MemberOk(insts: seq<Inst>, r: Run, k: nat)
    requires k < |r.members|
  {
    var mb := r.members[k];
    && mb.idx < |insts| && insts[mb.idx].Store? && PayloadOk(mb.bytes)
    && insts[mb.idx].addr == Some((r.root, r.start + |Payload(r.members[..k])|))
    && insts[mb.idx].payload == Some(mb.bytes)
    && (k + 1 < |r.members| ==> mb.idx < r.members[k + 1].idx)
  }

  function First(r: Run): nat
    requires r.members != []
  {
    r.members[0].idx
  }

  function Last(r: Run): nat
    requires r.members != []
  {
    r.members[|r.members| - 1].idx
  }

  /** A run's members store consecutive bytes, with only silent instructions between them. */
  ghost predicate RunOk(insts: seq<Inst>, r: Run) {
    && r.members != [] && First(r) <= Last(r) < |insts|
    && r.next == r.start + |Payload(r.members)|
    && (forall k :: 0 <= k < |r.members| ==> MemberOk(insts, r, k))
    && (forall i :: First(r) <= i <= Last(r) && !IsMember(r.members, i) ==> insts[i].Silent?)
  }

  // ---- The table of a run ------------------------------------------------------------

  function CheapBytes(bs: seq<MemByte>): nat {
    if bs == [] then 0
    else CheapBytes(bs[..|bs| - 1]) + if bs[|bs| - 1] == Lit(0) || bs[|bs| - 1] == Lit(0xFF) then 1 else 0
  }

  function BytesOf(bs: seq<MemByte>): seq<Byte> {
    seq(|bs|, k requires 0 <= k < |bs| => match bs[k] case Lit(v) => v case Half(_, _) => 0)
  }

  function RefsOf(bs: seq<MemByte>): seq<(nat, nat)> {
    if bs == [] then []
    else
      var n := |bs| - 1;
      RefsOf(bs[..n]) + if bs[n].Half? then [(n, bs[n].sym)] else []
  }

  function TableOf(bs: seq<MemByte>): Table {
    Table(BytesOf(bs), RefsOf(bs))
  }

  /** Inline: two words a byte, one for 0 and 0xFF. */
  function InlineWords(bs: seq<MemByte>): nat {
    if bs == [] then 0
    else InlineWords(bs[..|bs| - 1]) + if bs[|bs| - 1] == Lit(0) || bs[|bs| - 1] == Lit(0xFF) then 1 else 2
  }

  /** Tabled: the copy loop, and half a word a byte. */
  function TableWords(n: nat): nat {
    14 + (n + 1) / 2
  }

  /** The conversion gate. */
  predicate Pays(bs: seq<MemByte>) {
    && |bs| >= MIN_BYTES && RefsOf(bs) != []
    && 2 * |bs| - CheapBytes(bs) >= 14 + (|bs| + 1) / 2 + 1
  }

  lemma {:induction false} InlineCost(bs: seq<MemByte>)
    ensures InlineWords(bs) == 2 * |bs| - CheapBytes(bs)
    decreases |bs|
  {
    if bs != [] { InlineCost(bs[..|bs| - 1]); }
  }

  /** A run converts exactly when it is long enough, names a symbol, and the table is smaller. */
  lemma PaysExactly(bs: seq<MemByte>)
    ensures Pays(bs) <==> |bs| >= 10 && RefsOf(bs) != [] && TableWords(|bs|) < InlineWords(bs)
  {
    InlineCost(bs);
  }

  // ---- The table reads back as the run -----------------------------------------------

  lemma {:induction false} RefAtSnoc(refs: seq<(nat, nat)>, r: (nat, nat), k: nat)
    ensures RefAt(refs + [r], k) == if RefAt(refs, k).Some? then RefAt(refs, k) else if r.0 == k then Some(r.1)
      else None
    decreases |refs|
  {
    if refs == [] {
      assert [r][1..] == [];
    } else {
      assert (refs + [r])[1..] == refs[1..] + [r];
      RefAtSnoc(refs[1..], r, k);
    }
  }

  lemma {:induction false} RefsBelowSnoc(refs: seq<(nat, nat)>, r: (nat, nat), sym: nat, k: nat)
    ensures RefsBelow(refs + [r], sym, k) == RefsBelow(refs, sym, k) + if r.0 < k && r.1 == sym then 1 else 0
    decreases |refs|
  {
    if refs == [] {
      assert [r][1..] == [];
    } else {
      assert (refs + [r])[1..] == refs[1..] + [r];
      RefsBelowSnoc(refs[1..], r, sym, k);
    }
  }

  /** How often `sym` occurs below `k`. */
  function HalvesBelow(bs: seq<MemByte>, sym: nat, k: nat): nat
    requires k <= |bs|
  {
    if k == 0 then 0
    else HalvesBelow(bs, sym, k - 1) + if bs[k - 1].Half? && bs[k - 1].sym == sym then 1 else 0
  }

  lemma {:induction false} HalvesPrefix(a: seq<MemByte>, b: seq<MemByte>, sym: nat, k: nat)
    requires k <= |a|
    ensures HalvesBelow(a + b, sym, k) == HalvesBelow(a, sym, k)
  {
    if k > 0 { HalvesPrefix(a, b, sym, k - 1); }
  }

  lemma {:induction false} RefsAre(bs: seq<MemByte>, sym: nat, k: nat)
    ensures k < |bs| ==> RefAt(RefsOf(bs), k) == if bs[k].Half? then Some(bs[k].sym) else None
    ensures k >= |bs| ==> RefAt(RefsOf(bs), k) == None
    ensures RefsBelow(RefsOf(bs), sym, k) == HalvesBelow(bs, sym, Min(k, |bs|))
    decreases |bs|
  {
    if bs != [] {
      var n := |bs| - 1;
      RefsAre(bs[..n], sym, k);
      assert bs == bs[..n] + [bs[n]];
      HalvesPrefix(bs[..n], [bs[n]], sym, Min(k, n));
      if bs[n].Half? {
        RefAtSnoc(RefsOf(bs[..n]), (n, bs[n].sym), k);
        RefsBelowSnoc(RefsOf(bs[..n]), (n, bs[n].sym), sym, k);
      } else {
        assert RefsOf(bs) == RefsOf(bs[..n]);
      }
    }
  }

  /** Halves come in pairs, low then high: the parity of earlier ones tells which this is. */
  ghost predicate Paired(bs: seq<MemByte>) {
    forall k :: 0 <= k < |bs| && bs[k].Half? ==> (bs[k].high <==> HalvesBelow(bs, bs[k].sym, k) % 2 == 1)
  }

  ghost predicate Even(bs: seq<MemByte>) {
    forall sym: nat :: HalvesBelow(bs, sym, |bs|) % 2 == 0
  }

  lemma PairedMore(a: seq<MemByte>, b: seq<MemByte>)
    requires Paired(a) && Even(a) && PayloadOk(b)
    ensures Paired(a + b) && Even(a + b)
  {
    hide HalvesBelow, PayloadOk;
    var c := a + b;
    forall k | 0 <= k < |c| && c[k].Half? ensures c[k].high <==> HalvesBelow(c, c[k].sym, k) % 2 == 1 {
      if k < |a| {
        HalvesPrefix(a, b, c[k].sym, k);
        assert c[k] == a[k];
      } else {
        PairedBehind(a, b, k - |a|);
      }
    }
    forall sym: nat ensures HalvesBelow(c, sym, |c|) % 2 == 0 {
      HalvesConcat(a, b, sym, |b|);
      EvenPayload(b, sym);
    }
  }

  lemma EvenPayload(b: seq<MemByte>, sym: nat)
    requires PayloadOk(b)
    ensures HalvesBelow(b, sym, |b|) % 2 == 0
  {
    HalvesOfPayload(b, sym, |b|);
  }

  lemma PairedBehind(a: seq<MemByte>, b: seq<MemByte>, k: nat)
    requires Even(a) && PayloadOk(b) && k < |b| && b[k].Half?
    ensures b[k].high <==> HalvesBelow(a + b, b[k].sym, |a| + k) % 2 == 1
  {
    hide HalvesBelow;
    HalvesConcat(a, b, b[k].sym, k);
    HalvesOfPayload(b, b[k].sym, k);
    assert HalvesBelow(a, b[k].sym, |a|) % 2 == 0;
    assert k == 0 || k == 1;
  }

  lemma {:induction false} HalvesConcat(a: seq<MemByte>, b: seq<MemByte>, sym: nat, k: nat)
    requires k <= |b|
    ensures HalvesBelow(a + b, sym, |a| + k) == HalvesBelow(a, sym, |a|) + HalvesBelow(b, sym, k)
  {
    if k == 0 {
      HalvesPrefix(a, b, sym, |a|);
    } else {
      HalvesConcat(a, b, sym, k - 1);
    }
  }

  lemma {:induction false} HalvesOfPayload(b: seq<MemByte>, sym: nat, k: nat)
    requires PayloadOk(b) && k <= |b|
    ensures HalvesBelow(b, sym, k) == if |b| == 2 && b[0].Half? && b[0].sym == sym then k else 0
  {
    if k > 0 { HalvesOfPayload(b, sym, k - 1); }
  }

  lemma {:induction false} PayloadPaired(insts: seq<Inst>, r: Run, k: nat)
    requires k <= |r.members| && forall j :: 0 <= j < |r.members| ==> MemberOk(insts, r, j)
    ensures Paired(Payload(r.members[..k])) && Even(Payload(r.members[..k]))
  {
    if k > 0 {
      PayloadPaired(insts, r, k - 1);
      assert MemberOk(insts, r, k - 1);
      assert r.members[..k][..k - 1] == r.members[..k - 1];
      PairedMore(Payload(r.members[..k - 1]), r.members[k - 1].bytes);
    }
  }

  /** The synthesised table holds the run's very bytes, symbol halves included. */
  lemma TableReadsBack(insts: seq<Inst>, r: Run)
    requires RunOk(insts, r)
    ensures TableBytes(TableOf(Payload(r.members))) == Payload(r.members)
  {
    var bs := Payload(r.members);
    PayloadPaired(insts, r, |r.members|);
    assert r.members[..|r.members|] == r.members;
    forall k | 0 <= k < |bs| ensures TableByte(TableOf(bs), k) == bs[k] {
      RefsAre(bs, if bs[k].Half? then bs[k].sym else 0, k);
    }
  }
}
