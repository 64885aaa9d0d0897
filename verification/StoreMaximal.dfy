/** Which runs of a block are tabled: the longest runs of adjacent stores, and all of them. */
module StoreMaximal {
  import opened Wrappers
  import opened StoreRuns
  import opened StoreTabling

  /** A constant store to a known address that ends inside the 16-bit address space. */
  predicate Placed(i: Inst) {
    i.Store? && i.addr.Some? && i.payload.Some? && i.addr.value.1 + |i.payload.value| <= 0xFFFF
  }

  /** Store `j` writes right behind store `i`, with only silent instructions between them. */
  ghost predicate Follows(insts: seq<Inst>, i: nat, j: nat) {
    && i < j < |insts| && Placed(insts[i]) && Placed(insts[j])
    && insts[j].addr.value.0 == insts[i].addr.value.0
    && insts[j].addr.value.1 == insts[i].addr.value.1 + |insts[i].payload.value|
    && forall k :: i < k < j ==> insts[k].Silent?
  }

  /** The store that `j` follows; there is at most one. */
  ghost function Before(insts: seq<Inst>, j: nat): (r: Option<nat>)
    ensures r.Some? ==> Follows(insts, r.value, j)
    ensures r.None? ==> forall i: nat :: !Follows(insts, i, j)
  {
    if exists i: nat :: Follows(insts, i, j) then
      var i: nat :| Follows(insts, i, j);
      Some(i)
    else None
  }

  /** The run that store `j` is in, up to that store: the run of the store it follows, and itself,
      as long as one copy of 255 bytes reaches; else it starts one. */
  ghost function RunAt(insts: seq<Inst>, j: nat): Run
    requires j < |insts| && Placed(insts[j])
    decreases j
  {
    var (root, off) := insts[j].addr.value;
    var bs := insts[j].payload.value;
    var alone := Run(root, off, off + |bs|, [Member(j, bs)]);
    match Before(insts, j)
    case None => alone
    case Some(i) =>
      var r := RunAt(insts, i);
      if RunLen(r) + |bs| <= 255 then Run(root, r.start, off + |bs|, r.members + [Member(j, bs)]) else alone
  }

  /** The run of store `i` goes on with store `j`. */
  ghost predicate Continues(insts: seq<Inst>, i: nat, j: nat) {
    Follows(insts, i, j) && RunLen(RunAt(insts, i)) + |insts[j].payload.value| <= 255
  }

  /** A longest run: it goes on with no other store. */
  ghost predicate Ends(insts: seq<Inst>, j: nat) {
    j < |insts| && Placed(insts[j]) && forall k: nat :: !Continues(insts, j, k)
  }

  ghost predicate LongestRun(insts: seq<Inst>, r: Run) {
    exists j: nat :: Ends(insts, j) && r == RunAt(insts, j)
  }

  // ---- The runs the scan knows -------------------------------------------------------

  /** Store `j` and then only silent instructions, up to line `i`. */
  ghost predicate Pending(insts: seq<Inst>, j: nat, i: nat) {
    j < i <= |insts| && Placed(insts[j]) && forall k :: j < k < i ==> insts[k].Silent?
  }

  /** The run of store `j` is closed ahead of line `i`. */
  ghost predicate ClosedBy(insts: seq<Inst>, j: nat, i: nat) {
    j < i <= |insts| && Placed(insts[j]) && !Pending(insts, j, i) && forall k: nat :: k < i ==> !Continues(insts, j, k)
  }

  ghost predicate ScanIs(insts: seq<Inst>, st: Scan, i: nat) {
    && (forall r :: r in st.found <==> Pays(Payload(r.members)) && HasClosed(insts, r, i))
    && (st.open.Some? ==> exists j: nat :: Pending(insts, j, i) && st.open.value == RunAt(insts, j))
    && (st.open.None? ==> forall j: nat :: !Pending(insts, j, i))
  }

  ghost predicate HasClosed(insts: seq<Inst>, r: Run, i: nat) {
    exists j: nat :: ClosedBy(insts, j, i) && r == RunAt(insts, j)
  }

  lemma OnePending(insts: seq<Inst>, a: nat, b: nat, i: nat)
    requires Pending(insts, a, i) && Pending(insts, b, i)
    ensures a == b
  {
  }

  lemma ContinuedRun(insts: seq<Inst>, i: nat, j: nat)
    requires Continues(insts, i, j)
    ensures i < j < |insts| && Placed(insts[i]) && Placed(insts[j])
    ensures var r := RunAt(insts, i); var (root, off) := insts[j].addr.value; var bs := insts[j].payload.value;
            RunAt(insts, j) == Run(root, r.start, off + |bs|, r.members + [Member(j, bs)])
  {
    OnePending(insts, Before(insts, j).value, i, j);
  }

  lemma FirstRun(insts: seq<Inst>, j: nat)
    requires j < |insts| && Placed(insts[j]) && forall i: nat :: !Continues(insts, i, j)
    ensures var (root, off) := insts[j].addr.value; var bs := insts[j].payload.value;
            RunAt(insts, j) == Run(root, off, off + |bs|, [Member(j, bs)])
  {
    var b := Before(insts, j);
    if b.Some? { assert !Continues(insts, b.value, j); }
  }

  lemma RunEnds(insts: seq<Inst>, j: nat)
    requires j < |insts| && Placed(insts[j])
    ensures RunAt(insts, j).root == insts[j].addr.value.0
    ensures RunAt(insts, j).next == insts[j].addr.value.1 + |insts[j].payload.value|
  {
  }

  // ---- One instruction ---------------------------------------------------------------

  lemma SilentKeeps(insts: seq<Inst>, st: Scan, i: nat)
    requires i < |insts| && insts[i].Silent? && ScanIs(insts, st, i)
    ensures ScanIs(insts, st, i + 1)
  {
    hide RunAt, Pays, Payload, Continues, HasClosed;
    var n := i + 1;
    forall j: nat ensures Pending(insts, j, n) <==> Pending(insts, j, i) { PendingPast(insts, j, i); }
    forall j: nat ensures ClosedBy(insts, j, n) <==> ClosedBy(insts, j, i) {
      PendingPast(insts, j, i);
      NoneContinues(insts, j, i);
    }
    ClosedSame(insts, i);
  }

  lemma PendingPast(insts: seq<Inst>, j: nat, i: nat)
    requires i < |insts| && insts[i].Silent?
    ensures Pending(insts, j, i + 1) <==> Pending(insts, j, i)
  {
  }

  lemma NoneContinues(insts: seq<Inst>, j: nat, i: nat)
    requires i < |insts| && !Placed(insts[i])
    ensures !Continues(insts, j, i)
  {
    hide RunAt;
  }

  lemma ClosedSame(insts: seq<Inst>, i: nat)
    requires i < |insts| && forall j: nat :: ClosedBy(insts, j, i + 1) <==> ClosedBy(insts, j, i)
    ensures forall r :: HasClosed(insts, r, i + 1) <==> HasClosed(insts, r, i)
  {
    hide RunAt, ClosedBy;
  }

  /** Past an instruction that is not silent, the pending store's run is closed unless it goes on
      there. */
  lemma ClosedPast(insts: seq<Inst>, j: nat, i: nat)
    requires i < |insts| && !insts[i].Silent?
    ensures ClosedBy(insts, j, i + 1) <==> ClosedBy(insts, j, i) || (Pending(insts, j, i) && !Continues(insts, j, i))
    ensures Pending(insts, j, i + 1) <==> j == i && Placed(insts[i])
  {
    hide RunAt;
  }

  /** The open run goes on with store `i` exactly when the scan says it is adjacent. */
  lemma AdjacentIs(insts: seq<Inst>, st: Scan, i: nat)
    requires i < |insts| && Placed(insts[i]) && ScanIs(insts, st, i)
    ensures Adjacent(st.open, insts[i].addr.value.0, insts[i].addr.value.1, |insts[i].payload.value|)
            <==> exists j: nat :: Continues(insts, j, i)
  {
    hide RunAt, Pays, Payload, HasClosed;
    if st.open.Some? {
      var j: nat :| Pending(insts, j, i) && st.open.value == RunAt(insts, j);
      RunEnds(insts, j);
      assert Adjacent(st.open, insts[i].addr.value.0, insts[i].addr.value.1, |insts[i].payload.value|)
        <==> Continues(insts, j, i);
      forall h: nat | Continues(insts, h, i) ensures h == j { OnePending(insts, h, j, i); }
    } else {
      forall h: nat ensures !Continues(insts, h, i) { assert !Pending(insts, h, i); }
    }
  }

  /** Closing the open run adds it to the closed ones, unless it goes on with line `i`. */
  lemma FlushCloses(insts: seq<Inst>, st: Scan, i: nat)
    requires i < |insts| && !insts[i].Silent? && ScanIs(insts, st, i) && forall j: nat :: !Continues(insts, j, i)
    ensures forall r :: r in Flush(st).found <==> Pays(Payload(r.members)) && HasClosed(insts, r, i + 1)
  {
    hide RunAt, Pays, Payload, Continues;
    var n := i + 1;
    forall r ensures HasClosed(insts, r, n) <==> HasClosed(insts, r, i) || st.open == Some(r) {
      if HasClosed(insts, r, n) {
        var j: nat :| ClosedBy(insts, j, n) && r == RunAt(insts, j);
        ClosedPast(insts, j, i);
        if !ClosedBy(insts, j, i) { PendingIsOpen(insts, st, j, i); }
      }
      if HasClosed(insts, r, i) {
        var j: nat :| ClosedBy(insts, j, i) && r == RunAt(insts, j);
        ClosedPast(insts, j, i);
      }
      if st.open == Some(r) {
        var j: nat :| Pending(insts, j, i) && r == RunAt(insts, j);
        ClosedPast(insts, j, i);
      }
    }
  }

  lemma PendingIsOpen(insts: seq<Inst>, st: Scan, j: nat, i: nat)
    requires ScanIs(insts, st, i) && Pending(insts, j, i)
    ensures st.open == Some(RunAt(insts, j))
  {
    hide RunAt, Pays, Payload, HasClosed;
    if st.open.Some? {
      var h: nat :| Pending(insts, h, i) && st.open.value == RunAt(insts, h);
      OnePending(insts, h, j, i);
    }
  }

  lemma {:induction false} ScanIsExact(insts: seq<Inst>, i: nat)
    requires Typed(insts) && i <= |insts|
    ensures ScanIs(insts, ScanTo(insts, i), i)
  {
    hide RunAt, Pays, Payload, ScanIs, See, InstTyped;
    if i == 0 {
      NothingScanned(insts);
    } else {
      ScanIsExact(insts, i - 1);
      SeeIs(insts, ScanTo(insts, i - 1), i - 1);
    }
  }

  lemma NothingScanned(insts: seq<Inst>)
    ensures ScanIs(insts, Scan(None, []), 0)
  {
    hide RunAt, Pays, Payload;
  }

  lemma SeeIs(insts: seq<Inst>, st: Scan, i: nat)
    requires i < |insts| && InstTyped(insts[i]) && ScanIs(insts, st, i)
    ensures ScanIs(insts, See(st, i, insts[i]), i + 1)
  {
    hide RunAt, Pays, Payload, ScanIs, Flush, Adjacent, Continues, Pending;
    if insts[i].Silent? {
      SilentKeeps(insts, st, i);
    } else if !Placed(insts[i]) {
      forall j: nat ensures !Continues(insts, j, i) { NoneContinues(insts, j, i); }
      FlushCloses(insts, st, i);
      Flushed(st);
      NoneOpen(insts, Flush(st), i);
    } else {
      AdjacentIs(insts, st, i);
      if j: nat :| Continues(insts, j, i) {
        Extended(insts, st, j, i);
      } else {
        FlushCloses(insts, st, i);
        Flushed(st);
        FirstRun(insts, i);
        OneOpen(insts, See(st, i, insts[i]), i);
      }
    }
  }

  lemma Flushed(st: Scan)
    ensures Flush(st).open.None?
  {
  }

  lemma NoneOpen(insts: seq<Inst>, st: Scan, i: nat)
    requires i < |insts| && !insts[i].Silent? && !Placed(insts[i]) && st.open.None?
    requires forall r :: r in st.found <==> Pays(Payload(r.members)) && HasClosed(insts, r, i + 1)
    ensures ScanIs(insts, st, i + 1)
  {
    hide RunAt, Pays, Payload, Continues, HasClosed;
  }

  lemma OneOpen(insts: seq<Inst>, st: Scan, i: nat)
    requires i < |insts| && Placed(insts[i]) && st.open == Some(RunAt(insts, i))
    requires forall r :: r in st.found <==> Pays(Payload(r.members)) && HasClosed(insts, r, i + 1)
    ensures ScanIs(insts, st, i + 1)
  {
    hide RunAt, Pays, Payload, Continues, HasClosed;
    assert Pending(insts, i, i + 1);
  }

  lemma Extended(insts: seq<Inst>, st: Scan, j: nat, i: nat)
    requires ScanIs(insts, st, i) && Continues(insts, j, i)
    requires Adjacent(st.open, insts[i].addr.value.0, insts[i].addr.value.1, |insts[i].payload.value|)
    ensures ScanIs(insts, See(st, i, insts[i]), i + 1)
  {
    ContinuedRun(insts, j, i);
    RunEnds(insts, j);
    hide RunAt, Pays, Payload, HasClosed, Flush;
    PendingIsOpen(insts, st, j, i);
    var n := i + 1;
    forall h: nat ensures ClosedBy(insts, h, n) <==> ClosedBy(insts, h, i) {
      ClosedPast(insts, h, i);
      if Pending(insts, h, i) { OnePending(insts, h, j, i); }
    }
    ClosedSame(insts, i);
    assert Pending(insts, i, n);
  }

  /** The converted runs are exactly the longest runs that pay. */
  lemma FoundExact(insts: seq<Inst>, r: Run)
    requires Typed(insts)
    ensures r in Found(insts) <==> LongestRun(insts, r) && Pays(Payload(r.members))
  {
    hide RunAt, Pays, Payload, ScanTo, Typed;
    ScanIsExact(insts, |insts|);
    var n, st := |insts|, ScanTo(insts, |insts|);
    forall j: nat ensures Ends(insts, j) <==> ClosedBy(insts, j, n) || Pending(insts, j, n) {
      AtEnd(insts, j);
    }
    if LongestRun(insts, r) {
      var j: nat :| Ends(insts, j) && r == RunAt(insts, j);
      if Pending(insts, j, n) { PendingIsOpen(insts, st, j, n); }
    }
  }

  lemma AtEnd(insts: seq<Inst>, j: nat)
    ensures Ends(insts, j) <==> ClosedBy(insts, j, |insts|) || Pending(insts, j, |insts|)
  {
    hide RunAt;
  }
}
