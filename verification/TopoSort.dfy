/** The allocator's topological order: Kahn's algorithm over in-degrees, with the functions that
    are ready kept in a worklist. It yields every function once with callers first, or fails, and
    it fails exactly when some functions are each called by another of them. */
module TopoSort {
  import opened Wrappers
  import opened Cfg
  import opened Overlay

  // ---- Counting edges ----------------------------------------------------------------

  function Occurs(s: seq<nat>, c: nat): nat {
    if s == [] then 0 else (if s[0] == c then 1 else 0) + Occurs(s[1..], c)
  }

  lemma {:induction false} OccursIn(s: seq<nat>, c: nat)
    ensures Occurs(s, c) > 0 <==> c in s
  {
    if s != [] { OccursIn(s[1..], c); }
  }

  /** Calls of `c` from the functions below `n` that are not in `done`. */
  ghost function Pending(g: Graph, done: set<nat>, c: nat, n: nat): nat
    requires n <= |g|
  {
    if n == 0 then 0
    else Pending(g, done, c, n - 1) + if n - 1 in done then 0 else Occurs(g[n - 1], c)
  }

  lemma {:induction false} PendingDone(g: Graph, done: set<nat>, f: nat, c: nat, n: nat)
    requires n <= |g| && f < |g| && f !in done
    ensures Pending(g, done, c, n) == Pending(g, done + {f}, c, n) + if f < n then Occurs(g[f], c) else 0
  {
    if n > 0 { PendingDone(g, done, f, c, n - 1); }
  }

  lemma {:induction false} PendingCaller(g: Graph, done: set<nat>, c: nat, n: nat) returns (f: nat)
    requires n <= |g| && Pending(g, done, c, n) > 0
    ensures f < n && f !in done && c in g[f]
  {
    if n - 1 !in done && Occurs(g[n - 1], c) > 0 {
      f := n - 1;
      OccursIn(g[f], c);
    } else {
      f := PendingCaller(g, done, c, n - 1);
    }
  }

  lemma {:induction false} NotPending(g: Graph, done: set<nat>, c: nat, n: nat, f: nat)
    requires f < n <= |g| && Pending(g, done, c, n) == 0 && c in g[f]
    ensures f in done
  {
    OccursIn(g[f], c);
    if f < n - 1 { NotPending(g, done, c, n - 1, f); }
  }

  // ---- The order ---------------------------------------------------------------------

  /** Functions each of which is called by another of them: no order can start anywhere. */
  ghost predicate Knot(g: Graph, s: set<nat>) {
    s != {} && (forall c <- s :: c < |g|) && forall c <- s :: CalledFrom(g, c, s)
  }

  ghost predicate CalledFrom(g: Graph, c: nat, s: set<nat>) {
    exists f: nat :: f in s && Edge(g, f, c)
  }

  /** A topological order rules knots out. */
  lemma OrderNoKnot(g: Graph, topo: seq<nat>, s: set<nat>)
    requires IsTopological(g, topo)
    ensures !Knot(g, s)
  {
    if Knot(g, s) {
      var c :| c in s;
      assert c in topo;
      var j :| 0 <= j < |topo| && topo[j] == c;
      Climb(g, topo, s, j);
    }
  }

  lemma {:induction false} Climb(g: Graph, topo: seq<nat>, s: set<nat>, j: nat)
    requires IsTopological(g, topo) && Knot(g, s) && j < |topo| && topo[j] in s
    ensures false
    decreases j
  {
    var i := CallerBefore(g, topo, s, j);
    Climb(g, topo, s, i);
  }

  lemma CallerBefore(g: Graph, topo: seq<nat>, s: set<nat>, j: nat) returns (i: nat)
    requires IsTopological(g, topo) && Knot(g, s) && j < |topo| && topo[j] in s
    ensures i < j && topo[i] in s
  {
    hide Edge, Knot;
    var f := KnotCaller(g, s, topo[j]);
    i := PlaceOf(g, topo, f);
    CallerFirst(g, topo, i, j);
  }

  lemma CallerFirst(g: Graph, topo: seq<nat>, i: nat, j: nat)
    requires IsTopological(g, topo) && i < |topo| && j < |topo| && Edge(g, topo[i], topo[j])
    ensures i < j
  {
    hide Edge, Closed;
  }

  lemma KnotCaller(g: Graph, s: set<nat>, c: nat) returns (f: nat)
    requires Knot(g, s) && c in s
    ensures f in s && f < |g| && Edge(g, f, c)
  {
    assert CalledFrom(g, c, s);
    f :| f in s && Edge(g, f, c);
  }

  lemma PlaceOf(g: Graph, topo: seq<nat>, f: nat) returns (i: nat)
    requires IsTopological(g, topo) && f < |g|
    ensures i < |topo| && topo[i] == f
  {
    assert f in topo;
    var p :| 0 <= p < |topo| && topo[p] == f;
    i := p;
  }

  /** The state between rounds; `left` are the calls of the function just placed that are not
      yet taken off. */
  ghost predicate Sorting(g: Graph, indeg: seq<nat>, ready: seq<nat>, topo: seq<nat>, left: seq<nat>) {
    && CountsAre(g, indeg, Members(topo), left)
    && OrderOk(g, topo) && ReadyOk(g, indeg, ready, Members(topo))
    && (forall c <- Members(topo) :: c < |indeg| ==> indeg[c] == 0)
  }

  ghost predicate CountsAre(g: Graph, indeg: seq<nat>, done: set<nat>, left: seq<nat>) {
    && |indeg| == |g|
    && forall c: nat :: c < |g| ==> indeg[c] == Pending(g, done, c, |g|) + Occurs(left, c)
  }

  ghost predicate OrderOk(g: Graph, topo: seq<nat>) {
    && (forall k :: 0 <= k < |topo| ==> topo[k] < |g|)
    && (forall j, k :: 0 <= j < k < |topo| ==> topo[j] != topo[k] && !Edge(g, topo[k], topo[j]))
    && (forall k :: 0 <= k < |topo| ==> !Edge(g, topo[k], topo[k]))
  }

  ghost predicate ReadyOk(g: Graph, indeg: seq<nat>, ready: seq<nat>, done: set<nat>) {
    && |indeg| == |g|
    && (forall k :: 0 <= k < |ready| ==> ready[k] < |g| && ready[k] !in done && indeg[ready[k]] == 0)
    && (forall j, k :: 0 <= j < k < |ready| ==> ready[j] != ready[k])
    && (forall c: nat :: c < |g| && indeg[c] == 0 && c !in done ==> c in ready)
  }

  ghost function Members(s: seq<nat>): set<nat> {
    set x | x in s
  }

  /** In-degrees, counting every call. */
  method InDegrees(g: Graph) returns (indeg: seq<nat>)
    requires Closed(g)
    ensures |indeg| == |g| && forall c: nat :: c < |g| ==> indeg[c] == Pending(g, {}, c, |g|)
  {
    indeg := seq(|g|, _ => 0);
    for f := 0 to |g|
      invariant |indeg| == |g| && forall c: nat :: c < |g| ==> indeg[c] == Pending(g, {}, c, f)
    {
      ghost var before := indeg;
      for k := 0 to |g[f]|
        invariant |indeg| == |g|
        invariant forall c: nat :: c < |g| ==> indeg[c] + Occurs(g[f][k..], c) == before[c] + Occurs(g[f], c)
      {
        var c := g[f][k];
        assert g[f][k..][1..] == g[f][k + 1..];
        indeg := indeg[c := indeg[c] + 1];
      }
    }
  }

  /** Placing a ready function: nothing placed calls it, nor does it call anything placed. */
  lemma Placeable(g: Graph, indeg: seq<nat>, ready: seq<nat>, topo: seq<nat>, f: nat)
    requires Closed(g) && Sorting(g, indeg, ready, topo, []) && f < |g| && f !in Members(topo) && indeg[f] == 0
    ensures OrderOk(g, topo + [f])
    ensures CountsAre(g, indeg, Members(topo + [f]), g[f])
    ensures forall c <- Members(topo + [f]) :: c !in g[f]
    ensures forall c <- Members(topo + [f]) :: c < |indeg| && indeg[c] == 0
  {
    var done := Members(topo);
    assert Members(topo + [f]) == done + {f};
    forall c: nat | c < |g| ensures Pending(g, done, c, |g|) == Pending(g, done + {f}, c, |g|) + Occurs(g[f], c) {
      PendingDone(g, done, f, c, |g|);
    }
    forall c <- done + {f} ensures c !in g[f] {
      if c in g[f] { NotPending(g, done, c, |g|, f); }
    }
  }

  /** One round: place `f` and take its calls off. */
  method Place(g: Graph, indeg: seq<nat>, ready: seq<nat>, topo: seq<nat>)
      returns (indeg': seq<nat>, ready': seq<nat>, topo': seq<nat>)
    requires Closed(g) && ready != [] && Sorting(g, indeg, ready, topo, [])
    ensures Sorting(g, indeg', ready', topo', []) && |topo'| == |topo| + 1
    ensures Members(topo') == Members(topo) + {ready[|ready| - 1]} && ready[|ready| - 1] !in Members(topo)
  {
    var f := ready[|ready| - 1];
    Placeable(g, indeg, ready, topo, f);
    ready', topo', indeg' := ready[..|ready| - 1], topo + [f], indeg;
    ghost var done := Members(topo');
    assert done == Members(topo) + {f};
    assert ready == ready' + [f];
    assert ReadyOk(g, indeg', ready', done);
    assert g[f][0..] == g[f];
    hide OrderOk, Members, Edge, Closed;
    assert forall k :: 0 <= k < |g[f]| ==> g[f][k] < |g| by { CalleesBelow(g, f); }
    for k := 0 to |g[f]|
      invariant CountsAre(g, indeg', done, g[f][k..]) && ReadyOk(g, indeg', ready', done)
      invariant forall c <- done :: c < |indeg'| ==> indeg'[c] == 0
    {
      var c := g[f][k];
      assert g[f][k..][1..] == g[f][k + 1..];
      assert c in g[f] && c !in done;
      ghost var before, was := indeg', ready';
      indeg' := indeg'[c := indeg'[c] - 1];
      if indeg'[c] == 0 {
        ready' := ready' + [c];
      }
      TakenOff(g, before, was, indeg', ready', done, c, g[f][k..]);
    }
    assert g[f][|g[f]|..] == [];
  }

  lemma CalleesBelow(g: Graph, f: nat)
    requires Closed(g) && f < |g|
    ensures forall k :: 0 <= k < |g[f]| ==> g[f][k] < |g|
  {
  }

  lemma TakenOff(g: Graph, indeg: seq<nat>, ready: seq<nat>, indeg': seq<nat>, ready': seq<nat>, done: set<nat>,
                 c: nat, left: seq<nat>)
    requires CountsAre(g, indeg, done, left) && ReadyOk(g, indeg, ready, done)
    requires left != [] && left[0] == c < |g| && c !in done && indeg[c] > 0
    requires indeg' == indeg[c := indeg[c] - 1]
    requires ready' == if indeg'[c] == 0 then ready + [c] else ready
    ensures CountsAre(g, indeg', done, left[1..]) && ReadyOk(g, indeg', ready', done)
  {
    assert forall x: nat :: x < |g| && x != c ==> indeg'[x] == indeg[x];
    assert forall x :: x in ready ==> x in ready';
  }

  /** `None` stands for the panic on a cycle. */
  method TopoSort(g: Graph) returns (r: Option<seq<nat>>)
    requires Closed(g)
    ensures r.Some? ==> IsTopological(g, r.value)
    ensures r.None? <==> exists s :: Knot(g, s)
  {
    var indeg := InDegrees(g);
    var ready: seq<nat>, topo: seq<nat> := [], [];
    for c := 0 to |g|
      invariant forall k :: 0 <= k < |ready| ==> ready[k] < c && indeg[ready[k]] == 0
      invariant forall j, k :: 0 <= j < k < |ready| ==> ready[j] != ready[k]
      invariant forall x: nat :: x < c && indeg[x] == 0 ==> x in ready
    {
      if indeg[c] == 0 { ready := ready + [c]; }
    }
    assert Members(topo) == {};
    ghost var all := UpTo(|g|);
    while ready != []
      invariant Sorting(g, indeg, ready, topo, []) && Members(topo) <= all
      decreases all - Members(topo)
    {
      indeg, ready, topo := Place(g, indeg, ready, topo);
    }
    SortedSize(g, topo);
    if |topo| == |g| {
      AllPlaced(g, topo);
      forall s ensures !Knot(g, s) { OrderNoKnot(g, topo, s); }
      return Some(topo);
    }
    LeftIsKnot(g, indeg, topo);
    return None;
  }

  lemma {:induction false} MembersSize(s: seq<nat>)
    requires forall j, k :: 0 <= j < k < |s| ==> s[j] != s[k]
    ensures |Members(s)| == |s|
    decreases |s|
  {
    if s != [] {
      var n := |s| - 1;
      MembersSize(s[..n]);
      assert Members(s) == Members(s[..n]) + {s[n]} && s[n] !in Members(s[..n]) by { assert s == s[..n] + [s[n]]; }
    }
  }

  lemma SortedSize(g: Graph, topo: seq<nat>)
    requires OrderOk(g, topo)
    ensures |Members(topo)| == |topo| && Members(topo) <= UpTo(|g|)
  {
    MembersSize(topo);
  }

  lemma AllPlaced(g: Graph, topo: seq<nat>)
    requires OrderOk(g, topo) && |topo| == |g|
    ensures IsTopological(g, topo)
  {
    SortedSize(g, topo);
    UpToSize(|g|);
    var rest := UpTo(|g|) - Members(topo);
    assert |UpTo(|g|)| == |Members(topo)| + |rest| by { assert UpTo(|g|) == Members(topo) + rest; }
    assert rest == {};
    forall f: nat | f < |g| ensures f in topo { assert f in UpTo(|g|) && f !in rest; }
  }

  /** What is never ready calls itself round. */
  lemma LeftIsKnot(g: Graph, indeg: seq<nat>, topo: seq<nat>)
    requires Sorting(g, indeg, [], topo, []) && |topo| != |g|
    ensures Knot(g, UpTo(|g|) - Members(topo))
  {
    hide Sorting, CalledFrom, Members;
    var s := UpTo(|g|) - Members(topo);
    SomeLeft(g, indeg, topo);
    forall c <- s ensures CalledFrom(g, c, s) {
      LeftIsCalled(g, indeg, topo, c);
    }
  }

  lemma SomeLeft(g: Graph, indeg: seq<nat>, topo: seq<nat>)
    requires Sorting(g, indeg, [], topo, []) && |topo| != |g|
    ensures UpTo(|g|) - Members(topo) != {}
  {
    assert OrderOk(g, topo);
    hide Sorting, OrderOk, Members, UpTo;
    SortedSize(g, topo);
    UpToSize(|g|);
    NoneLeft(UpTo(|g|), Members(topo));
  }

  lemma NoneLeft(a: set<nat>, b: set<nat>)
    requires b <= a
    ensures a - b == {} ==> a == b
  {
    assert a == b + (a - b);
  }

  lemma LeftIsCalled(g: Graph, indeg: seq<nat>, topo: seq<nat>, c: nat)
    requires Sorting(g, indeg, [], topo, []) && c in UpTo(|g|) - Members(topo)
    ensures CalledFrom(g, c, UpTo(|g|) - Members(topo))
  {
    hide OrderOk, Edge, Closed, Members, UpTo;
    assert indeg[c] != 0;
    assert Pending(g, Members(topo), c, |g|) > 0;
    var f := PendingCaller(g, Members(topo), c, |g|);
    EdgeIs(g, f, c);
  }

  lemma EdgeIs(g: Graph, f: nat, c: nat)
    requires f < |g| && c < |g| && c in g[f]
    ensures Edge(g, f, c)
  {
  }
}
