/** The rewriting around store runs: the scan that finds them, the remove-then-insert index
    arithmetic that replaces them, and the proof that every block computes the same state: what
    is in memory and registers when it ends. */
module StoreTabling {
  import opened Wrappers
  import opened StoreRuns

  // ---- The scan ----------------------------------------------------------------------

  datatype Scan = Scan(open: Option<Run>, found: seq<Run>)

  /** Close the open run; keep it when it pays. */
  function Flush(st: Scan): Scan {
    match st.open
    case None => st
    case Some(r) => Scan(None, if Pays(Payload(r.members)) then st.found + [r] else st.found)
  }

  function RunLen(r: Run): int {
    r.next - r.start
  }

  predicate Adjacent(open: Option<Run>, root: Root, off: nat, n: nat) {
    open.Some? && open.value.root == root && open.value.next == off && RunLen(open.value) + n <= MAX_COPY
  }

  function See(st: Scan, i: nat, inst: Inst): Scan {
    match inst
    case Store(Some((root, off)), Some(bs), _) =>
      if off + |bs| > 0xFFFF then Flush(st)
      else if Adjacent(st.open, root, off, |bs|) then
        var r := st.open.value;
        st.(open := Some(r.(next := r.next + |bs|, members := r.members + [Member(i, bs)])))
      else Flush(st).(open := Some(Run(root, off, off + |bs|, [Member(i, bs)])))
    case Silent(_) => st
    case _ => Flush(st)
  }

  function ScanTo(insts: seq<Inst>, i: nat): Scan
    requires i <= |insts|
  {
    if i == 0 then Scan(None, []) else See(ScanTo(insts, i - 1), i - 1, insts[i - 1])
  }

  /** The runs a block converts. */
  function Found(insts: seq<Inst>): seq<Run> {
    Flush(ScanTo(insts, |insts|)).found
  }

  // ---- The rewritten block -----------------------------------------------------------

  function Replacement(r: Run): seq<Inst> {
    (if r.start == 0 then [] else [Setup]) + [Copy(r.root, r.start, TableOf(Payload(r.members)))]
  }

  function Idxs(ms: seq<Member>): seq<nat> {
    seq(|ms|, k requires 0 <= k < |ms| => ms[k].idx)
  }

  function AllIdxs(runs: seq<Run>): seq<nat> {
    if runs == [] then [] else AllIdxs(runs[..|runs| - 1]) + Idxs(runs[|runs| - 1].members)
  }

  ghost function Elems(s: seq<nat>): set<nat> {
    set x | x in s
  }

  /** The instructions of `[i, j)` that are not `dead`. */
  function Kept(insts: seq<Inst>, dead: set<nat>, i: nat, j: nat): seq<Inst>
    requires i <= j <= |insts|
    decreases j - i
  {
    if i == j then [] else Kept(insts, dead, i, j - 1) + if j - 1 in dead then [] else [insts[j - 1]]
  }

  function End(runs: seq<Run>, k: nat): nat
    requires k <= |runs| && forall r <- runs :: r.members != []
  {
    if k == 0 then 0 else Last(runs[k - 1]) + 1
  }

  ghost predicate RunsOk(insts: seq<Inst>, runs: seq<Run>) {
    && (forall k :: 0 <= k < |runs| ==> RunOk(insts, runs[k]))
    && (forall k :: 0 <= k < |runs| ==> runs[k].members != [])
    && (forall k: nat :: k < |runs| ==> End(runs, k) <= First(runs[k]))
  }

  /** The block up to the end of run `k`, each run's members gone and its copy in the last one's place. */
  ghost function Tabled(insts: seq<Inst>, runs: seq<Run>, k: nat): seq<Inst>
    requires RunsOk(insts, runs) && k <= |runs|
  {
    if k == 0 then []
    else
      var r := runs[k - 1];
      assert RunOk(insts, r);
      Tabled(insts, runs, k - 1) + insts[End(runs, k - 1)..First(r)]
      + Kept(insts, Elems(Idxs(r.members)), First(r), Last(r) + 1) + Replacement(r)
  }

  ghost function Rewritten(insts: seq<Inst>, runs: seq<Run>): seq<Inst>
    requires RunsOk(insts, runs)
  {
    EndInside(insts, runs, |runs|);
    Tabled(insts, runs, |runs|) + insts[End(runs, |runs|)..]
  }

  lemma EndInside(insts: seq<Inst>, runs: seq<Run>, k: nat)
    requires RunsOk(insts, runs) && k <= |runs|
    ensures End(runs, k) <= |insts|
  {
    if k > 0 { assert RunOk(insts, runs[k - 1]); }
  }

  // ---- One run computes the same state -----------------------------------------------

  lemma {:induction false} IdxRise(insts: seq<Inst>, r: Run, j: nat, k: nat)
    requires RunOk(insts, r) && j < k < |r.members|
    ensures r.members[j].idx < r.members[k].idx
    decreases k - j
  {
    assert MemberOk(insts, r, k - 1);
    if j < k - 1 { IdxRise(insts, r, j, k - 1); }
  }

  /** `j` members lie below line `i`. */
  ghost predicate Below(r: Run, i: nat, j: nat) {
    && j <= |r.members|
    && (j > 0 ==> r.members[j - 1].idx < i)
    && (j < |r.members| ==> i <= r.members[j].idx)
  }

  lemma NotMember(insts: seq<Inst>, r: Run, i: nat, j: nat)
    requires RunOk(insts, r) && Below(r, i, j) && Below(r, i + 1, j)
    ensures !IsMember(r.members, i)
  {
    hide MemberOk;
    forall k | 0 <= k < |r.members| ensures r.members[k].idx != i {
      if k < j - 1 { IdxRise(insts, r, k, j - 1); }
      if j < k { IdxRise(insts, r, j, k); }
    }
  }

  ghost function Pending<R>(s: State<R>, r: Run, j: nat): State<R>
    requires j <= |r.members|
  {
    s.(mem := Write(s.mem, r.root, r.start, Payload(r.members[..j])))
  }

  /** Inside a run, the original is ahead of the rewritten block by the bytes stored so far. */
  lemma {:induction false} Ahead<R>(m: Machine<R>, insts: seq<Inst>, r: Run, i: nat, j: nat, s: State<R>)
    requires RunOk(insts, r) && First(r) <= i <= Last(r) + 1 && Below(r, i, j)
    ensures Exec(m, insts[First(r)..i], s)
         == Pending(Exec(m, Kept(insts, Elems(Idxs(r.members)), First(r), i), s), r, j)
    decreases i
  {
    hide MemberOk, Step, Payload, IsMember, Replacement;
    if i == First(r) {
      if j > 1 { IdxRise(insts, r, 0, j - 1); }
      assert j == 0 && insts[i..i] == [];
      NothingPending(m, r, s);
    } else if j > 0 && r.members[j - 1].idx == i - 1 {
      if j > 1 { IdxRise(insts, r, j - 2, j - 1); }
      Ahead(m, insts, r, i - 1, j - 1, s);
      AheadMember(m, insts, r, i, j, s);
    } else {
      Ahead(m, insts, r, i - 1, j, s);
      NotMember(insts, r, i - 1, j);
      AheadSilent(m, insts, r, i, j, s);
    }
  }

  lemma NothingPending<R>(m: Machine<R>, r: Run, s: State<R>)
    ensures Pending(Exec(m, [], s), r, 0) == Exec(m, [], s) == s
  {
    assert r.members[..0] == [];
  }

  lemma ExecNext<R>(m: Machine<R>, insts: seq<Inst>, a: nat, i: nat, s: State<R>)
    requires a < i <= |insts|
    ensures Exec(m, insts[a..i], s) == Step(m, insts[i - 1], Exec(m, insts[a..i - 1], s))
  {
    assert insts[a..i][..i - a - 1] == insts[a..i - 1];
  }

  lemma AheadMember<R>(m: Machine<R>, insts: seq<Inst>, r: Run, i: nat, j: nat, s: State<R>)
    requires RunOk(insts, r) && First(r) < i <= Last(r) + 1 && 0 < j <= |r.members| && r.members[j - 1].idx == i - 1
    requires Exec(m, insts[First(r)..i - 1], s)
          == Pending(Exec(m, Kept(insts, Elems(Idxs(r.members)), First(r), i - 1), s), r, j - 1)
    ensures Exec(m, insts[First(r)..i], s)
         == Pending(Exec(m, Kept(insts, Elems(Idxs(r.members)), First(r), i), s), r, j)
  {
    hide MemberOk, Step, Pending, Exec, Replacement, IsMember;
    var dead := Elems(Idxs(r.members));
    assert Idxs(r.members)[j - 1] == i - 1;
    assert Kept(insts, dead, First(r), i) == Kept(insts, dead, First(r), i - 1);
    ExecNext(m, insts, First(r), i, s);
    AheadStore(m, insts, r, j - 1, Exec(m, Kept(insts, dead, First(r), i - 1), s));
  }

  lemma AheadSilent<R>(m: Machine<R>, insts: seq<Inst>, r: Run, i: nat, j: nat, s: State<R>)
    requires RunOk(insts, r) && First(r) < i <= Last(r) + 1 && j <= |r.members| && !IsMember(r.members, i - 1)
    requires Exec(m, insts[First(r)..i - 1], s)
          == Pending(Exec(m, Kept(insts, Elems(Idxs(r.members)), First(r), i - 1), s), r, j)
    ensures Exec(m, insts[First(r)..i], s)
         == Pending(Exec(m, Kept(insts, Elems(Idxs(r.members)), First(r), i), s), r, j)
  {
    assert insts[i - 1].Silent?;
    hide MemberOk, Exec, Replacement, RunOk, Payload, Write;
    var dead := Elems(Idxs(r.members));
    NotDead(r, i - 1);
    ExecNext(m, insts, First(r), i, s);
    KeptStep(m, insts, dead, First(r), i, s);
  }

  lemma NotDead(r: Run, i: nat)
    requires !IsMember(r.members, i)
    ensures i !in Elems(Idxs(r.members))
  {
    var s := Idxs(r.members);
    assert forall k :: 0 <= k < |s| ==> s[k] == r.members[k].idx;
  }

  lemma KeptStep<R>(m: Machine<R>, insts: seq<Inst>, dead: set<nat>, a: nat, i: nat, s: State<R>)
    requires a < i <= |insts| && i - 1 !in dead
    ensures Exec(m, Kept(insts, dead, a, i), s) == Step(m, insts[i - 1], Exec(m, Kept(insts, dead, a, i - 1), s))
  {
    var k := Kept(insts, dead, a, i);
    assert k[..|k| - 1] == Kept(insts, dead, a, i - 1);
  }

  lemma AheadStore<R>(m: Machine<R>, insts: seq<Inst>, r: Run, j: nat, s: State<R>)
    requires RunOk(insts, r) && j < |r.members|
    ensures MemberOk(insts, r, j)
    ensures Step(m, insts[r.members[j].idx], Pending(s, r, j)) == Pending(s, r, j + 1)
  {
    assert MemberOk(insts, r, j);
    assert r.members[..j + 1][..j] == r.members[..j];
    WriteConcat(s.mem, r.root, r.start, Payload(r.members[..j]), r.members[j].bytes);
  }

  lemma RunSame<R>(m: Machine<R>, insts: seq<Inst>, r: Run, s: State<R>)
    requires RunOk(insts, r)
    ensures Exec(m, insts[First(r)..Last(r) + 1], s)
         == Exec(m, Kept(insts, Elems(Idxs(r.members)), First(r), Last(r) + 1) + Replacement(r), s)
  {
    var kept := Kept(insts, Elems(Idxs(r.members)), First(r), Last(r) + 1);
    Ahead(m, insts, r, Last(r) + 1, |r.members|, s);
    assert r.members[..|r.members|] == r.members;
    ExecConcat(m, kept, Replacement(r), s);
    CopySame(m, insts, r, Exec(m, kept, s));
  }

  lemma CopySame<R>(m: Machine<R>, insts: seq<Inst>, r: Run, s: State<R>)
    requires RunOk(insts, r)
    ensures Exec(m, Replacement(r), s) == s.(mem := Write(s.mem, r.root, r.start, Payload(r.members)))
  {
    TableReadsBack(insts, r);
    var p := Replacement(r);
    var c := p[|p| - 1];
    assert Exec(m, p[..|p| - 1], s) == s by {
      if r.start == 0 {
        assert p[..|p| - 1] == [];
      } else {
        assert p[..|p| - 1] == [Setup] && [Setup][..0] == [];
      }
    }
  }

  lemma {:induction false} TabledSame<R>(m: Machine<R>, insts: seq<Inst>, runs: seq<Run>, k: nat, s: State<R>)
    requires RunsOk(insts, runs) && k <= |runs|
    ensures End(runs, k) <= |insts|
    ensures Exec(m, insts[..End(runs, k)], s) == Exec(m, Tabled(insts, runs, k), s)
  {
    hide Exec, Replacement, RunOk, Kept;
    EndInside(insts, runs, k);
    if k > 0 {
      TabledSame(m, insts, runs, k - 1, s);
      TabledNext(m, insts, runs, k, s);
    } else {
      assert insts[..0] == [];
    }
  }

  lemma TabledNext<R>(m: Machine<R>, insts: seq<Inst>, runs: seq<Run>, k: nat, s: State<R>)
    requires RunsOk(insts, runs) && 0 < k <= |runs| && End(runs, k - 1) <= |insts| && End(runs, k) <= |insts|
    requires Exec(m, insts[..End(runs, k - 1)], s) == Exec(m, Tabled(insts, runs, k - 1), s)
    ensures Exec(m, insts[..End(runs, k)], s) == Exec(m, Tabled(insts, runs, k), s)
  {
    hide Exec, Replacement, Kept, MemberOk, Payload, Tabled, RunOk, First, Last, Idxs;
    TabledIs(insts, runs, k);
    var r := runs[k - 1];
    var a, b, c := insts[..End(runs, k - 1)], insts[End(runs, k - 1)..First(r)], insts[First(r)..Last(r) + 1];
    assert insts[..End(runs, k)] == a + b + c;
    var t := Tabled(insts, runs, k - 1);
    var c' := Kept(insts, Elems(Idxs(r.members)), First(r), Last(r) + 1) + Replacement(r);
    RunSame(m, insts, r, Exec(m, a + b, s));
    Chain(m, a, b, c, t, c', s);
  }

  lemma TabledIs(insts: seq<Inst>, runs: seq<Run>, k: nat)
    requires RunsOk(insts, runs) && 0 < k <= |runs|
    ensures var r := runs[k - 1];
            && RunOk(insts, r) && r.members != []
            && End(runs, k - 1) <= First(r) <= Last(r) < |insts| && End(runs, k) == Last(r) + 1
            && Tabled(insts, runs, k)
               == Tabled(insts, runs, k - 1) + insts[End(runs, k - 1)..First(r)]
                  + (Kept(insts, Elems(Idxs(r.members)), First(r), Last(r) + 1) + Replacement(r))
  {
    hide Replacement, Kept, MemberOk, Payload;
    assert RunOk(insts, runs[k - 1]);
  }

  lemma Chain<R>(m: Machine<R>, a: seq<Inst>, b: seq<Inst>, c: seq<Inst>, t: seq<Inst>, c': seq<Inst>, s: State<R>)
    requires Exec(m, a, s) == Exec(m, t, s)
    requires Exec(m, c, Exec(m, a + b, s)) == Exec(m, c', Exec(m, a + b, s))
    ensures Exec(m, a + b + c, s) == Exec(m, t + b + c', s)
  {
    hide Exec;
    ExecConcat(m, a + b, c, s);
    ExecConcat(m, a, b, s);
    ExecConcat(m, t + b, c', s);
    ExecConcat(m, t, b, s);
  }

  /** The rewritten block leaves every machine in the state the original leaves it in. */
  lemma RewrittenSame<R>(m: Machine<R>, insts: seq<Inst>, runs: seq<Run>, s: State<R>)
    requires RunsOk(insts, runs)
    ensures Exec(m, Rewritten(insts, runs), s) == Exec(m, insts, s)
  {
    hide Exec;
    TabledSame(m, insts, runs, |runs|, s);
    var e := End(runs, |runs|);
    assert insts == insts[..e] + insts[e..];
    ExecConcat(m, insts[..e], insts[e..], s);
    ExecConcat(m, Tabled(insts, runs, |runs|), insts[e..], s);
  }

  // ---- The scan finds runs -----------------------------------------------------------

  /** Constant stores write one to eight bytes; the pass's own instructions are not there yet. */
  ghost predicate Typed(insts: seq<Inst>) {
    forall i :: 0 <= i < |insts| ==> InstTyped(insts[i])
  }

  predicate InstTyped(i: Inst) {
    && !i.Setup? && !i.Copy?
    && (i.Store? && i.payload.Some? ==> 1 <= |i.payload.value| <= 8 && PayloadOk(i.payload.value))
  }

  ghost predicate RunFits(insts: seq<Inst>, r: Run) {
    RunOk(insts, r) && |Payload(r.members)| <= MAX_COPY
  }

  ghost predicate FoundOk(insts: seq<Inst>, found: seq<Run>, i: nat) {
    && RunsOk(insts, found) && End(found, |found|) <= i
    && forall k :: 0 <= k < |found| ==> RunFits(insts, found[k]) && Pays(Payload(found[k].members))
  }

  ghost predicate OpenOk(insts: seq<Inst>, r: Run, lo: nat, i: nat) {
    && RunFits(insts, r) && lo <= First(r) && Last(r) < i <= |insts|
    && forall k :: Last(r) < k < i ==> insts[k].Silent?
  }

  ghost predicate ScanOk(insts: seq<Inst>, st: Scan, i: nat) {
    && FoundOk(insts, st.found, i)
    && (st.open.Some? ==> OpenOk(insts, st.open.value, End(st.found, |st.found|), i))
  }

  lemma FlushOk(insts: seq<Inst>, st: Scan, i: nat)
    requires ScanOk(insts, st, i) && i <= |insts|
    ensures ScanOk(insts, Flush(st), i) && Flush(st).open.None?
  {
    hide RunOk, Pays, Payload;
    if st.open.Some? {
      var r := st.open.value;
      assert RunFits(insts, r);
      RunNonEmpty(insts, r);
      if Pays(Payload(r.members)) {
        FoundMore(insts, st.found, r, i);
      }
    }
  }

  lemma RunNonEmpty(insts: seq<Inst>, r: Run)
    requires RunOk(insts, r)
    ensures r.members != []
  {
  }

  lemma FoundMore(insts: seq<Inst>, found: seq<Run>, r: Run, i: nat)
    requires FoundOk(insts, found, i) && OpenOk(insts, r, End(found, |found|), i) && Pays(Payload(r.members))
    requires r.members != []
    ensures FoundOk(insts, found + [r], i)
  {
    hide RunOk, Pays, Payload, First, Last;
    var more := found + [r];
    assert forall k :: 0 <= k < |found| ==> more[k] == found[k];
    forall k: nat | k < |more| ensures End(more, k) <= First(more[k]) {
      if k < |found| {
        assert End(more, k) == End(found, k);
      } else {
        assert End(more, k) == End(found, |found|);
      }
    }
  }

  lemma NewRunOk(insts: seq<Inst>, i: nat, root: Root, off: nat, bs: seq<MemByte>)
    requires i < |insts| && insts[i].Store? && insts[i].addr == Some((root, off)) && insts[i].payload == Some(bs)
    requires PayloadOk(bs) && |bs| <= 8
    ensures RunFits(insts, Run(root, off, off + |bs|, [Member(i, bs)]))
  {
    var r := Run(root, off, off + |bs|, [Member(i, bs)]);
    assert r.members[..0] == [];
    assert Payload(r.members) == Payload([]) + bs == bs;
    assert MemberOk(insts, r, 0);
    assert IsMember(r.members, i) by { assert r.members[0].idx == i; }
  }

  lemma ExtendOk(insts: seq<Inst>, r: Run, i: nat, bs: seq<MemByte>, lo: nat)
    requires OpenOk(insts, r, lo, i) && i < |insts| && insts[i].Store? && insts[i].addr == Some((r.root, r.next))
    requires insts[i].payload == Some(bs) && PayloadOk(bs) && RunLen(r) + |bs| <= MAX_COPY
    ensures OpenOk(insts, r.(next := r.next + |bs|, members := r.members + [Member(i, bs)]), lo, i + 1)
  {
    var ms := r.members + [Member(i, bs)];
    var r' := r.(next := r.next + |bs|, members := ms);
    assert ms[..|r.members|] == r.members;
    assert Payload(ms) == Payload(r.members) + bs;
    forall k | 0 <= k < |ms| ensures MemberOk(insts, r', k) {
      if k < |r.members| {
        assert MemberOk(insts, r, k);
        assert ms[..k] == r.members[..k];
      }
    }
    forall k | First(r') <= k <= Last(r') && !IsMember(ms, k) ensures insts[k].Silent? {
      NotOldMember(r.members, Member(i, bs), k);
    }
  }

  lemma NotOldMember(ms: seq<Member>, m: Member, k: nat)
    requires !IsMember(ms + [m], k)
    ensures !IsMember(ms, k) && m.idx != k
  {
    var all := ms + [m];
    assert all[|ms|] == m;
    assert forall c :: 0 <= c < |ms| ==> all[c] == ms[c];
  }

  lemma {:induction false} ScanIsOk(insts: seq<Inst>, i: nat)
    requires Typed(insts) && i <= |insts|
    ensures ScanOk(insts, ScanTo(insts, i), i)
  {
    hide FoundOk, OpenOk, See, InstTyped;
    if i == 0 {
      NothingFound(insts);
    } else {
      ScanIsOk(insts, i - 1);
      SeeOk(insts, ScanTo(insts, i - 1), i - 1);
    }
  }

  lemma NothingFound(insts: seq<Inst>)
    ensures FoundOk(insts, [], 0)
  {
  }

  lemma SeeOk(insts: seq<Inst>, st: Scan, i: nat)
    requires i < |insts| && InstTyped(insts[i]) && ScanOk(insts, st, i)
    ensures ScanOk(insts, See(st, i, insts[i]), i + 1)
  {
    hide RunOk, Pays, Payload, Flush, RunsOk, PayloadOk;
    FlushOk(insts, st, i);
    FoundNonEmpty(insts, st.found, i);
    match insts[i]
    case Store(Some((root, off)), Some(bs), _) =>
      if off + |bs| <= 0xFFFF {
        if Adjacent(st.open, root, off, |bs|) {
          ExtendOk(insts, st.open.value, i, bs, End(st.found, |st.found|));
        } else {
          NewRunOk(insts, i, root, off, bs);
          assert See(st, i, insts[i]).found == Flush(st).found;
        }
      }
    case _ =>
  }

  /** The converted runs: disjoint, in order, each within one copy, and each worth it. */
  lemma FoundIsOk(insts: seq<Inst>)
    requires Typed(insts)
    ensures FoundOk(insts, Found(insts), |insts|)
  {
    hide OpenOk, Flush, ScanTo, RunOk, RunFits, Pays, Payload;
    ScanIsOk(insts, |insts|);
    FlushOk(insts, ScanTo(insts, |insts|), |insts|);
  }

  // ---- The scan loop -----------------------------------------------------------------

  function Inserts(runs: seq<Run>): seq<(nat, seq<Inst>)>
    requires forall r <- runs :: r.members != []
  {
    seq(|runs|, k requires 0 <= k < |runs| => (Last(runs[k]), Replacement(runs[k])))
  }

  function Tables(runs: seq<Run>): seq<Table> {
    seq(|runs|, k requires 0 <= k < |runs| => TableOf(Payload(runs[k].members)))
  }

  /** The bytes, symbol references and cheap bytes of a run. */
  method Collect(ms: seq<Member>) returns (bytes: seq<Byte>, refs: seq<(nat, nat)>, cheap: nat)
    ensures bytes == BytesOf(Payload(ms)) && refs == RefsOf(Payload(ms)) && cheap == CheapBytes(Payload(ms))
  {
    hide BytesOf, RefsOf, CheapBytes;
    bytes, refs, cheap := [], [], 0;
    ghost var all: seq<MemByte> := [];
    CollectNone();
    for k := 0 to |ms|
      invariant all == Payload(ms[..k])
      invariant bytes == BytesOf(all) && refs == RefsOf(all) && cheap == CheapBytes(all)
    {
      ghost var before := all;
      for c := 0 to |ms[k].bytes|
        invariant all == before + ms[k].bytes[..c]
        invariant bytes == BytesOf(all) && refs == RefsOf(all) && cheap == CheapBytes(all)
      {
        var b := ms[k].bytes[c];
        ghost var was := all;
        all := all + [b];
        CollectNext(was, b);
        match b {
          case Lit(v) =>
            if v == 0 || v == 0xFF { cheap := cheap + 1; }
            bytes := bytes + [v];
          case Half(sym, _) =>
            refs := refs + [(|bytes|, sym)];
            bytes := bytes + [0];
        }
      }
      assert ms[k].bytes[..|ms[k].bytes|] == ms[k].bytes;
      assert ms[..k + 1][..k] == ms[..k];
    }
    assert ms[..|ms|] == ms;
  }

  lemma CollectNone()
    ensures BytesOf([]) == [] && RefsOf([]) == [] && CheapBytes([]) == 0
  {
  }

  lemma CollectNext(bs: seq<MemByte>, b: MemByte)
    ensures |BytesOf(bs)| == |bs|
    ensures BytesOf(bs + [b]) == BytesOf(bs) + [match b case Lit(v) => v case Half(_, _) => 0]
    ensures RefsOf(bs + [b]) == RefsOf(bs) + if b.Half? then [(|bs|, b.sym)] else []
    ensures CheapBytes(bs + [b]) == CheapBytes(bs) + if b == Lit(0) || b == Lit(0xFF) then 1 else 0
  {
    assert (bs + [b])[..|bs|] == bs;
  }

  /** Close the open run, and plan its replacement when it pays. */
  method FlushRun(open: Option<Run>, removals: seq<nat>, inserts: seq<(nat, seq<Inst>)>, tables: seq<Table>,
                  ghost insts: seq<Inst>, ghost found: seq<Run>, ghost i: nat)
      returns (removals': seq<nat>, inserts': seq<(nat, seq<Inst>)>, tables': seq<Table>)
    requires i <= |insts| && ScanOk(insts, Scan(open, found), i)
    requires removals == AllIdxs(found) && inserts == Inserts(found) && tables == Tables(found)
    ensures var f := Flush(Scan(open, found)).found;
            FoundOk(insts, f, i) && (forall r <- f :: r.members != []) && removals' == AllIdxs(f)
              && inserts' == Inserts(f) && tables' == Tables(f)
  {
    FoundNonEmpty(insts, found, i);
    FlushOk(insts, Scan(open, found), i);
    FoundNonEmpty(insts, Flush(Scan(open, found)).found, i);
    hide FoundOk, OpenOk, RunsOk, AllIdxs, Inserts, Tables, Idxs, TableOf, Payload, RefsOf, CheapBytes, BytesOf;
    removals', inserts', tables' := removals, inserts, tables;
    if open.None? { return; }
    var run := open.value;
    OpenNonEmpty(insts, run, End(found, |found|), i);
    var n := run.next - run.start;
    if n < MIN_BYTES { return; }
    var bytes, refs, cheap := Collect(run.members);
    if refs == [] { return; }
    if 2 * n - cheap < 14 + (n + 1) / 2 + 1 { return; }
    var copy := Copy(run.root, run.start, Table(bytes, refs));
    var setup: seq<Inst> := if run.start == 0 then [] else [Setup];
    removals' := PushIdxs(removals, run.members);
    inserts' := inserts' + [(run.members[|run.members| - 1].idx, setup + [copy])];
    tables' := tables' + [Table(bytes, refs)];
    FlushKeeps(found, run);
    ReplacementIs(run);
  }

  method PushIdxs(removals: seq<nat>, ms: seq<Member>) returns (r: seq<nat>)
    ensures r == removals + Idxs(ms)
  {
    r := removals;
    for k := 0 to |ms|
      invariant r == removals + Idxs(ms)[..k]
    {
      r := r + [ms[k].idx];
    }
    assert Idxs(ms)[..|ms|] == Idxs(ms);
  }

  lemma ReplacementIs(r: Run)
    ensures var t := Table(BytesOf(Payload(r.members)), RefsOf(Payload(r.members)));
            && TableOf(Payload(r.members)) == t
            && Replacement(r) == (if r.start == 0 then [] else [Setup]) + [Copy(r.root, r.start, t)]
  {
  }

  lemma FoundNonEmpty(insts: seq<Inst>, found: seq<Run>, i: nat)
    requires FoundOk(insts, found, i)
    ensures forall r <- found :: r.members != []
  {
  }

  lemma OpenNonEmpty(insts: seq<Inst>, r: Run, lo: nat, i: nat)
    requires OpenOk(insts, r, lo, i)
    ensures r.members != [] && RunLen(r) == |Payload(r.members)|
  {
  }

  lemma FlushKeeps(found: seq<Run>, r: Run)
    requires r.members != [] && forall x <- found :: x.members != []
    ensures var f := found + [r];
            && AllIdxs(f) == AllIdxs(found) + Idxs(r.members)
            && Inserts(f) == Inserts(found) + [(Last(r), Replacement(r))]
            && Tables(f) == Tables(found) + [TableOf(Payload(r.members))]
  {
    var f := found + [r];
    assert f[..|f| - 1] == found;
  }

  /** One instruction of the scan, on the open run and the plans. */
  method ScanInsts(insts: seq<Inst>) returns (removals: seq<nat>, inserts: seq<(nat, seq<Inst>)>, tables: seq<Table>)
    requires Typed(insts)
    ensures var f := Found(insts);
            FoundOk(insts, f, |insts|) && (forall r <- f :: r.members != []) && removals == AllIdxs(f)
              && inserts == Inserts(f) && tables == Tables(f)
  {
    hide FoundOk, OpenOk, AllIdxs, Inserts, Tables, InstTyped, Flush, Payload, ScanTo;
    removals, inserts, tables := [], [], [];
    var open: Option<Run> := None;
    ghost var found: seq<Run> := [];
    NothingFound(insts);
    NothingPlanned(insts);
    for i := 0 to |insts|
      invariant Scan(open, found) == ScanTo(insts, i) && ScanOk(insts, Scan(open, found), i)
      invariant forall r <- found :: r.members != []
      invariant removals == AllIdxs(found) && inserts == Inserts(found) && tables == Tables(found)
    {
      ScanIsOk(insts, i + 1);
      ScanNext(insts, i);
      if insts[i].Store? && insts[i].addr.Some? && insts[i].payload.Some? {
        var (root, off) := insts[i].addr.value;
        var bs := insts[i].payload.value;
        var len := |bs|;
        if off + len > 0xFFFF {
          removals, inserts, tables := FlushRun(open, removals, inserts, tables, insts, found, i);
          found := Flush(Scan(open, found)).found;
          open := None;
        } else if Adjacent(open, root, off, len) {
          var run := open.value;
          open := Some(run.(next := run.next + len, members := run.members + [Member(i, bs)]));
        } else {
          removals, inserts, tables := FlushRun(open, removals, inserts, tables, insts, found, i);
          found := Flush(Scan(open, found)).found;
          open := Some(Run(root, off, off + len, [Member(i, bs)]));
        }
      } else if !insts[i].Silent? {
        removals, inserts, tables := FlushRun(open, removals, inserts, tables, insts, found, i);
        found := Flush(Scan(open, found)).found;
        open := None;
      }
    }
    removals, inserts, tables := FlushRun(open, removals, inserts, tables, insts, found, |insts|);
  }

  lemma NothingPlanned(insts: seq<Inst>)
    ensures AllIdxs([]) == [] && Inserts([]) == [] && Tables([]) == [] && ScanTo(insts, 0) == Scan(None, [])
  {
  }

  /** One instruction, case by case. */
  lemma ScanNext(insts: seq<Inst>, i: nat)
    requires i < |insts|
    ensures var st := ScanTo(insts, i); var l := insts[i]; var flushed := Flush(st);
            && flushed.open.None?
            && ScanTo(insts, i + 1)
               == if l.Store? && l.addr.Some? && l.payload.Some? then
                    var (root, off) := l.addr.value;
                    if off + |l.payload.value| > 0xFFFF then flushed
                    else if Adjacent(st.open, root, off, |l.payload.value|) then
                      var r := st.open.value;
                      st.(open := Some(r.(next := r.next + |l.payload.value|,
                                          members := r.members + [Member(i, l.payload.value)])))
                    else flushed.(open := Some(Run(root, off, off + |l.payload.value|, [Member(i, l.payload.value)])))
                  else if l.Silent? then st
                  else flushed
  {
    hide Pays, Payload, Adjacent;
  }

  // ---- Splicing ----------------------------------------------------------------------

  lemma {:induction false} KeptSplit(insts: seq<Inst>, dead: set<nat>, i: nat, k: nat, j: nat)
    requires i <= k <= j <= |insts|
    ensures Kept(insts, dead, i, j) == Kept(insts, dead, i, k) + Kept(insts, dead, k, j)
    decreases j - k
  {
    if k < j { KeptSplit(insts, dead, i, k, j - 1); }
  }

  lemma {:induction false} KeptAll(insts: seq<Inst>, dead: set<nat>, i: nat, j: nat)
    requires i <= j <= |insts| && forall x :: i <= x < j ==> x !in dead
    ensures Kept(insts, dead, i, j) == insts[i..j]
    decreases j - i
  {
    if i < j {
      KeptAll(insts, dead, i, j - 1);
      assert insts[i..j] == insts[i..j - 1] + [insts[j - 1]];
    }
  }

  lemma {:induction false} KeptSame(insts: seq<Inst>, dead: set<nat>, dead': set<nat>, i: nat, j: nat)
    requires i <= j <= |insts| && forall x :: i <= x < j ==> (x in dead <==> x in dead')
    ensures Kept(insts, dead, i, j) == Kept(insts, dead', i, j)
    decreases j - i
  {
    if i < j { KeptSame(insts, dead, dead', i, j - 1); }
  }

  ghost predicate Rising(s: seq<nat>) {
    forall j, k :: 0 <= j < k < |s| ==> s[j] < s[k]
  }

  /** Remove the planned members, last first. */
  method RemoveAll(insts: seq<Inst>, removals: seq<nat>) returns (list: seq<Inst>)
    requires Rising(removals) && forall k :: 0 <= k < |removals| ==> removals[k] < |insts|
    ensures list == Kept(insts, Elems(removals), 0, |insts|)
  {
    hide Kept, Elems;
    ghost var dead := Elems(removals);
    list := insts;
    var k: nat := |removals|;
    ghost var p: nat := |insts|;
    KeptNone(insts, dead, p);
    while k > 0
      invariant k <= |removals| && p <= |insts|
      invariant k < |removals| ==> p == removals[k]
      invariant k == |removals| ==> p == |insts|
      invariant list == insts[..p] + Kept(insts, dead, p, |insts|)
    {
      k := k - 1;
      var idx := removals[k];
      RemoveOne(insts, removals, k, p);
      assert list[..idx] == insts[..idx] && list[idx + 1..] == insts[idx + 1..p] + Kept(insts, dead, p, |insts|);
      list := list[..idx] + list[idx + 1..];
      p := idx;
    }
    NoneBelow(removals, p);
    KeptAll(insts, dead, 0, p);
    KeptSplit(insts, dead, 0, p, |insts|);
    assert insts[0..p] == insts[..p];
  }

  lemma KeptNone(insts: seq<Inst>, dead: set<nat>, p: nat)
    requires p == |insts|
    ensures Kept(insts, dead, p, |insts|) == [] && insts[..p] == insts
  {
  }

  lemma NoneBelow(removals: seq<nat>, p: nat)
    requires Rising(removals) && (removals != [] ==> p == removals[0])
    ensures forall x :: 0 <= x < p ==> x !in Elems(removals)
  {
  }

  lemma RemoveOne(insts: seq<Inst>, removals: seq<nat>, k: nat, p: nat)
    requires Rising(removals) && k < |removals| && removals[k] < p <= |insts|
    requires p == if k + 1 < |removals| then removals[k + 1] else |insts|
    ensures var idx := removals[k]; var dead := Elems(removals);
            Kept(insts, dead, idx, |insts|) == insts[idx + 1..p] + Kept(insts, dead, p, |insts|)
  {
    var idx, dead := removals[k], Elems(removals);
    assert idx in dead;
    KeptSplit(insts, dead, idx, p, |insts|);
    KeptSplit(insts, dead, idx, idx + 1, p);
    assert Kept(insts, dead, idx, idx + 1) == [];
    forall x | idx + 1 <= x < p ensures x !in dead { Gap(removals, k, x); }
    KeptAll(insts, dead, idx + 1, p);
  }

  lemma Gap(removals: seq<nat>, k: nat, x: nat)
    requires Rising(removals) && k < |removals| && removals[k] < x
    requires k + 1 < |removals| ==> x < removals[k + 1]
    ensures x !in Elems(removals)
  {
  }

  function CountBelow(s: seq<nat>, x: nat): nat {
    if s == [] then 0 else CountBelow(s[..|s| - 1], x) + if s[|s| - 1] < x then 1 else 0
  }

  method CountRemoved(removals: seq<nat>, last: nat) returns (n: nat)
    ensures n == CountBelow(removals, last)
  {
    n := 0;
    for k := 0 to |removals|
      invariant n == CountBelow(removals[..k], last)
    {
      assert removals[..k + 1][..k] == removals[..k];
      if removals[k] < last { n := n + 1; }
    }
    assert removals[..|removals|] == removals;
  }

  lemma {:induction false} CountNext(s: seq<nat>, x: nat)
    requires Rising(s)
    ensures CountBelow(s, x + 1) == CountBelow(s, x) + if x in Elems(s) then 1 else 0
    decreases |s|
  {
    if s != [] {
      var n := |s| - 1;
      CountNext(s[..n], x);
      assert s == s[..n] + [s[n]];
      assert x in Elems(s) <==> x in Elems(s[..n]) || s[n] == x;
      assert s[n] == x ==> x !in Elems(s[..n]);
    }
  }

  /** How many instructions survive below `i`. */
  lemma {:induction false} KeptSize(insts: seq<Inst>, removals: seq<nat>, i: nat)
    requires i <= |insts| && Rising(removals)
    ensures |Kept(insts, Elems(removals), 0, i)| + CountBelow(removals, i) == i
  {
    if i == 0 {
      CountNone(removals);
    } else {
      KeptSize(insts, removals, i - 1);
      CountNext(removals, i - 1);
    }
  }

  lemma {:induction false} CountNone(s: seq<nat>)
    ensures CountBelow(s, 0) == 0
  {
    if s != [] { CountNone(s[..|s| - 1]); }
  }

  // ---- Which instructions are gone ---------------------------------------------------

  lemma {:induction false} EndsRise(insts: seq<Inst>, runs: seq<Run>, j: nat, k: nat)
    requires RunsOk(insts, runs) && j <= k <= |runs|
    ensures End(runs, j) <= End(runs, k)
    decreases k - j
  {
    hide RunOk, First, Last;
    if j < k {
      EndsRise(insts, runs, j, k - 1);
      assert RunOk(insts, runs[k - 1]);
      RunBounds(insts, runs[k - 1]);
      EndIs(runs, k);
    }
  }

  lemma RunBounds(insts: seq<Inst>, r: Run)
    requires RunOk(insts, r)
    ensures r.members != [] && First(r) <= Last(r) < |insts|
  {
  }

  lemma EndIs(runs: seq<Run>, k: nat)
    requires 0 < k <= |runs| && forall r <- runs :: r.members != []
    ensures End(runs, k) == Last(runs[k - 1]) + 1
  {
  }

  lemma IdxInside(insts: seq<Inst>, r: Run, x: nat)
    requires RunOk(insts, r) && x in Idxs(r.members)
    ensures First(r) <= x <= Last(r)
  {
    var k :| 0 <= k < |r.members| && Idxs(r.members)[k] == x;
    if k > 0 { IdxRise(insts, r, 0, k); }
    if k < |r.members| - 1 { IdxRise(insts, r, k, |r.members| - 1); }
  }

  lemma {:induction false} GoneFrom(runs: seq<Run>, n: nat, x: nat) returns (k: nat)
    requires n <= |runs| && x in AllIdxs(runs[..n])
    ensures k < n && x in Idxs(runs[k].members)
  {
    assert runs[..n][..n - 1] == runs[..n - 1];
    if x in Idxs(runs[n - 1].members) { k := n - 1; } else { k := GoneFrom(runs, n - 1, x); }
  }

  lemma {:induction false} GoneIn(runs: seq<Run>, n: nat, k: nat, x: nat)
    requires k < n <= |runs| && x in Idxs(runs[k].members)
    ensures x in AllIdxs(runs[..n])
  {
    assert runs[..n][..n - 1] == runs[..n - 1];
    if k < n - 1 { GoneIn(runs, n - 1, k, x); }
  }

  /** Up to the end of run `k`, only its own members are gone. */
  lemma GoneIs(insts: seq<Inst>, runs: seq<Run>, k: nat, x: nat)
    requires RunsOk(insts, runs) && k < |runs| && End(runs, k) <= x <= Last(runs[k])
    ensures x in Elems(AllIdxs(runs)) <==> x in Elems(Idxs(runs[k].members))
  {
    hide RunOk, Idxs, First, Last, AllIdxs, End;
    assert runs[..|runs|] == runs;
    EndIs(runs, k + 1);
    if x in Idxs(runs[k].members) { GoneIn(runs, |runs|, k, x); }
    if x in AllIdxs(runs) {
      var j := GoneFrom(runs, |runs|, x);
      assert RunOk(insts, runs[j]);
      IdxInside(insts, runs[j], x);
      if j < k {
        EndIs(runs, j + 1);
        EndsRise(insts, runs, j + 1, k);
      } else if k < j {
        EndsRise(insts, runs, k + 1, j);
      }
    }
  }

  lemma {:induction false} GoneRise(insts: seq<Inst>, runs: seq<Run>, n: nat)
    requires RunsOk(insts, runs) && n <= |runs|
    ensures Rising(AllIdxs(runs[..n])) && forall x <- AllIdxs(runs[..n]) :: x < End(runs, n) <= |insts|
  {
    hide RunOk, First, Last, Idxs, Rising;
    EndInside(insts, runs, n);
    if n == 0 {
      NoneGone(runs);
    } else {
      GoneRise(insts, runs, n - 1);
      assert runs[..n][..n - 1] == runs[..n - 1];
      assert RunOk(insts, runs[n - 1]);
      RunBounds(insts, runs[n - 1]);
      EndIs(runs, n);
      RisingConcat(insts, AllIdxs(runs[..n - 1]), runs[n - 1], End(runs, n - 1));
    }
  }

  lemma NoneGone(runs: seq<Run>)
    ensures AllIdxs(runs[..0]) == [] && Rising([])
  {
  }

  lemma RisingConcat(insts: seq<Inst>, a: seq<nat>, r: Run, lo: nat)
    requires Rising(a) && (forall x <- a :: x < lo) && RunOk(insts, r) && lo <= First(r)
    ensures Rising(a + Idxs(r.members)) && forall x <- a + Idxs(r.members) :: x <= Last(r)
  {
    hide MemberOk, Payload;
    var b := Idxs(r.members);
    forall x <- b ensures First(r) <= x <= Last(r) { IdxInside(insts, r, x); }
    forall j, k | 0 <= j < k < |a + b| ensures (a + b)[j] < (a + b)[k] {
      if j >= |a| {
        IdxRise(insts, r, j - |a|, k - |a|);
      } else if k >= |a| {
        assert (a + b)[k] in b && (a + b)[j] in a;
      } else {
        assert (a + b)[j] == a[j] && (a + b)[k] == a[k];
      }
    }
  }

  /** Where run `k`'s copy goes in the list without members. */
  lemma InsertPoint(insts: seq<Inst>, runs: seq<Run>, k: nat)
    requires RunsOk(insts, runs) && k < |runs|
    ensures RunOk(insts, runs[k]) && End(runs, k + 1) <= |insts|
    ensures var r := runs[k]; var all := AllIdxs(runs); var dead := Elems(all);
            var mid := insts[End(runs, k)..First(r)] + Kept(insts, Elems(Idxs(r.members)), First(r), Last(r) + 1);
            && Kept(insts, dead, End(runs, k), |insts|) == mid + Kept(insts, dead, Last(r) + 1, |insts|)
            && |Kept(insts, dead, 0, End(runs, k))| + |mid| + CountBelow(all, Last(r)) == Last(r)
            && |Kept(insts, dead, 0, Last(r) + 1)| == |Kept(insts, dead, 0, End(runs, k))| + |mid|
  {
    hide RunOk, Idxs, AllIdxs, Elems, Kept, First, Last, End, Rising, CountBelow;
    var r := runs[k];
    assert RunOk(insts, r);
    RunBounds(insts, r);
    EndIs(runs, k + 1);
    var all := AllIdxs(runs);
    var dead := Elems(all);
    var a, f, l := End(runs, k), First(r), Last(r);
    assert runs[..|runs|] == runs;
    GoneRise(insts, runs, |runs|);
    InsertMiddle(insts, runs, k);
    KeptSplit(insts, dead, a, l + 1, |insts|);
    KeptSplit(insts, dead, 0, a, l + 1);
    KeptSize(insts, all, l);
    KeptDead(insts, dead, 0, l + 1);
  }

  lemma KeptDead(insts: seq<Inst>, dead: set<nat>, i: nat, j: nat)
    requires i < j <= |insts| && j - 1 in dead
    ensures Kept(insts, dead, i, j) == Kept(insts, dead, i, j - 1)
  {
  }

  lemma InsertMiddle(insts: seq<Inst>, runs: seq<Run>, k: nat)
    requires RunsOk(insts, runs) && k < |runs|
    ensures RunOk(insts, runs[k])
    ensures var r := runs[k]; var dead := Elems(AllIdxs(runs));
            && Last(r) in dead
            && Kept(insts, dead, End(runs, k), Last(r) + 1)
               == insts[End(runs, k)..First(r)] + Kept(insts, Elems(Idxs(r.members)), First(r), Last(r) + 1)
  {
    hide RunOk, AllIdxs, Kept, Idxs, Elems, First, Last, End;
    var r := runs[k];
    assert RunOk(insts, r);
    RunBounds(insts, r);
    var dead, own := Elems(AllIdxs(runs)), Elems(Idxs(r.members));
    var a, f, l := End(runs, k), First(r), Last(r);
    OwnIdxs(insts, r);
    forall x: nat | a <= x <= l ensures x in dead <==> x in own { GoneIs(insts, runs, k, x); }
    KeptSplit(insts, dead, a, f, l + 1);
    KeptAll(insts, dead, a, f);
    KeptSame(insts, dead, own, f, l + 1);
  }

  lemma OwnIdxs(insts: seq<Inst>, r: Run)
    requires RunOk(insts, r)
    ensures Last(r) in Elems(Idxs(r.members))
    ensures forall x <- Elems(Idxs(r.members)) :: First(r) <= x <= Last(r)
  {
    hide MemberOk, Payload;
    assert Idxs(r.members)[|r.members| - 1] == Last(r);
    forall x <- Elems(Idxs(r.members)) ensures First(r) <= x <= Last(r) { IdxInside(insts, r, x); }
  }

  /** Put every copy in, first run first, shifting later positions by what went in before. */
  method InsertAll(insts: seq<Inst>, kept: seq<Inst>, removals: seq<nat>, inserts: seq<(nat, seq<Inst>)>,
                   ghost runs: seq<Run>)
      returns (list: seq<Inst>)
    requires RunsOk(insts, runs) && removals == AllIdxs(runs)
    requires (forall r <- runs :: r.members != []) && inserts == Inserts(runs)
    requires kept == Kept(insts, Elems(removals), 0, |insts|)
    ensures list == Rewritten(insts, runs)
  {
    hide RunOk, Kept, Elems, AllIdxs, Idxs, Replacement, Tabled, RunsOk;
    ghost var dead := Elems(removals);
    list := kept;
    var shift: nat := 0;
    TabledNone(insts, runs);
    for k := 0 to |inserts|
      invariant End(runs, k) <= |insts|
      invariant list == Tabled(insts, runs, k) + Kept(insts, dead, End(runs, k), |insts|)
      invariant |Tabled(insts, runs, k)| == |Kept(insts, dead, 0, End(runs, k))| + shift
    {
      var (last, ins) := inserts[k];
      InsertPoint(insts, runs, k);
      TabledIs(insts, runs, k + 1);
      var removedBefore := CountRemoved(removals, last);
      var at := last - removedBefore + shift;
      ghost var r := runs[k];
      ghost var mid := insts[End(runs, k)..First(r)] + Kept(insts, Elems(Idxs(r.members)), First(r), Last(r) + 1);
      ghost var rest := Kept(insts, dead, Last(r) + 1, |insts|);
      assert list == (Tabled(insts, runs, k) + mid) + rest && at == |Tabled(insts, runs, k) + mid|;
      list := InsertAt(list, at, ins);
      assert Tabled(insts, runs, k + 1) == (Tabled(insts, runs, k) + mid) + ins;
      shift := shift + |ins|;
    }
    AfterLast(insts, runs, dead);
  }

  method InsertAt(list: seq<Inst>, at: nat, ins: seq<Inst>) returns (r: seq<Inst>)
    requires at <= |list|
    ensures r == list[..at] + ins + list[at..]
  {
    r := list;
    for j := 0 to |ins|
      invariant r == list[..at] + ins[..j] + list[at..]
    {
      assert r[..at + j] == list[..at] + ins[..j] && r[at + j..] == list[at..];
      r := r[..at + j] + [ins[j]] + r[at + j..];
    }
  }

  lemma TabledNone(insts: seq<Inst>, runs: seq<Run>)
    requires RunsOk(insts, runs)
    ensures Tabled(insts, runs, 0) == [] && End(runs, 0) == 0
    ensures forall dead :: Kept(insts, dead, 0, 0) == []
  {
  }

  lemma AfterLast(insts: seq<Inst>, runs: seq<Run>, dead: set<nat>)
    requires RunsOk(insts, runs) && dead == Elems(AllIdxs(runs))
    ensures End(runs, |runs|) <= |insts|
    ensures Tabled(insts, runs, |runs|) + Kept(insts, dead, End(runs, |runs|), |insts|) == Rewritten(insts, runs)
  {
    hide RunOk, Tabled, Kept, AllIdxs, First, Last, Rising;
    assert runs[..|runs|] == runs;
    EndInside(insts, runs, |runs|);
    GoneRise(insts, runs, |runs|);
    forall x | End(runs, |runs|) <= x < |insts| ensures x !in dead {
      assert x in dead ==> x in AllIdxs(runs);
    }
    KeptAll(insts, dead, End(runs, |runs|), |insts|);
    assert insts[End(runs, |runs|)..|insts|] == insts[End(runs, |runs|)..];
  }

  /** Table the store runs of one block: the block without the converted runs' members, each
      run's copy at its last member's place, and the tables. */
  method TableStoreRuns(insts: seq<Inst>) returns (out: seq<Inst>, tables: seq<Table>)
    requires Typed(insts)
    ensures FoundOk(insts, Found(insts), |insts|)
    ensures out == Rewritten(insts, Found(insts)) && tables == Tables(Found(insts))
  {
    hide FoundOk, Rewritten, Found, AllIdxs, Elems, RunsOk, Kept, Inserts, Tables, Typed;
    var removals, inserts;
    removals, inserts, tables := ScanInsts(insts);
    PlanOk(insts);
    var kept := RemoveAll(insts, removals);
    out := InsertAll(insts, kept, removals, inserts, Found(insts));
  }

  lemma PlanOk(insts: seq<Inst>)
    requires FoundOk(insts, Found(insts), |insts|)
    ensures RunsOk(insts, Found(insts)) && Rising(AllIdxs(Found(insts)))
    ensures forall k :: 0 <= k < |AllIdxs(Found(insts))| ==> AllIdxs(Found(insts))[k] < |insts|
  {
    hide RunOk, Found, AllIdxs, RunFits, Pays;
    var runs := Found(insts);
    assert runs[..|runs|] == runs;
    GoneRise(insts, runs, |runs|);
    assert forall k :: 0 <= k < |AllIdxs(runs)| ==> AllIdxs(runs)[k] in AllIdxs(runs);
  }

  /** Tabling a block's store runs changes nothing any machine can compute. */
  lemma TablingSame<R>(m: Machine<R>, insts: seq<Inst>, s: State<R>)
    requires Typed(insts)
    ensures FoundOk(insts, Found(insts), |insts|)
    ensures Exec(m, Rewritten(insts, Found(insts)), s) == Exec(m, insts, s)
  {
    FoundIsOk(insts);
    hide Typed, Found, Exec, Rewritten, RunFits, Pays;
    RewrittenSame(m, insts, Found(insts), s);
  }
}
