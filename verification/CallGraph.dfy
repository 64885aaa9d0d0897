/** The call graph: its edges, rejection of recursion, and the exact depth of its longest chain,
    from a depth-first search that colours functions as it enters and leaves them and remembers
    the depth of those it has left. */
module CallGraph {
  import opened Wrappers

  /** A call site: its target text and the candidates of an indirect call. */
  datatype Site = Site(func: string, callees: seq<string>)

  datatype Func = Func(name: string, calls: seq<Site>)

  type Edges = seq<(string, string)>

  predicate IsNumeric(s: string) {
    forall k :: 0 <= k < |s| ==> '0' <= s[k] <= '9'
  }

  /** The functions a site can enter: none for the inline delay and for a numeric target
      without candidates. */
  function Targets(s: Site): seq<string> {
    if s.func == "_delay" then []
    else if s.callees == [] then if IsNumeric(s.func) then [] else [s.func]
    else s.callees
  }

  function EdgesTo(f: string, targets: seq<string>): Edges {
    seq(|targets|, k requires 0 <= k < |targets| => (f, targets[k]))
  }

  function EdgesOf(f: string, sites: seq<Site>): Edges {
    if sites == [] then [] else EdgesOf(f, sites[..|sites| - 1]) + EdgesTo(f, Targets(sites[|sites| - 1]))
  }

  function AllEdges(m: seq<Func>): Edges {
    if m == [] then [] else AllEdges(m[..|m| - 1]) + EdgesOf(m[|m| - 1].name, m[|m| - 1].calls)
  }

  // ---- The call relation -------------------------------------------------------------

  /** Site `s` can enter `g`: named directly, unless it stands for a number and lists no
      candidates, or listed among the candidates. The inline delay enters nothing. */
  ghost predicate Enters(s: Site, g: string) {
    && s.func != "_delay"
    && (g in s.callees || (s.callees == [] && g == s.func && exists c :: c in g && !('0' <= c <= '9')))
  }

  /** Some site of a function named `f` can enter `g`. */
  ghost predicate MayEnter(m: seq<Func>, f: string, g: string) {
    exists i: nat :: i < |m| && m[i].name == f && SomeEnters(m[i].calls, g)
  }

  ghost predicate SomeEnters(sites: seq<Site>, g: string) {
    exists k: nat :: k < |sites| && Enters(sites[k], g)
  }

  /** Functions each of which may enter the next. */
  ghost predicate CallChain(m: seq<Func>, p: seq<string>) {
    p != [] && forall k: nat :: k + 1 < |p| ==> Next(m, p, k)
  }

  ghost predicate Next(m: seq<Func>, p: seq<string>, k: nat)
    requires k + 1 < |p|
  {
    MayEnter(m, p[k], p[k + 1])
  }

  ghost predicate CallCycle(m: seq<Func>, p: seq<string>) {
    CallChain(m, p) && |p| >= 2 && p[0] == p[|p| - 1]
  }

  lemma TargetsAre(s: Site, g: string)
    ensures g in Targets(s) <==> Enters(s, g)
  {
    if s.callees == [] && g == s.func {
      if IsNumeric(g) {
        assert !exists c :: c in g && !('0' <= c <= '9');
      } else {
        var k :| 0 <= k < |g| && !('0' <= g[k] <= '9');
        assert g[k] in g;
      }
    }
  }

  lemma {:induction false} SiteEdges(f: string, sites: seq<Site>, a: string, g: string)
    ensures (a, g) in EdgesOf(f, sites) <==> a == f && SomeEnters(sites, g)
    decreases |sites|
  {
    if sites != [] {
      var n := |sites| - 1;
      SiteEdges(f, sites[..n], a, g);
      TargetsAre(sites[n], g);
      var last := EdgesTo(f, Targets(sites[n]));
      if (a, g) in last {
        var k :| 0 <= k < |last| && last[k] == (a, g);
        assert Targets(sites[n])[k] == g;
      }
      if a == f && g in Targets(sites[n]) {
        var k :| 0 <= k < |Targets(sites[n])| && Targets(sites[n])[k] == g;
        assert last[k] == (a, g);
      }
      SomeSnoc(sites, g);
    }
  }

  lemma SomeSnoc(sites: seq<Site>, g: string)
    requires sites != []
    ensures SomeEnters(sites, g) <==> SomeEnters(sites[..|sites| - 1], g) || Enters(sites[|sites| - 1], g)
  {
    hide Enters;
    var n := |sites| - 1;
    if SomeEnters(sites, g) {
      var k: nat :| k < |sites| && Enters(sites[k], g);
      if k < n { assert Enters(sites[..n][k], g); }
    }
    if SomeEnters(sites[..n], g) {
      var k: nat :| k < n && Enters(sites[..n][k], g);
      assert Enters(sites[k], g);
    }
  }

  /** The edges are the call relation. */
  lemma {:induction false} EdgesAre(m: seq<Func>, f: string, g: string)
    ensures (f, g) in AllEdges(m) <==> MayEnter(m, f, g)
    decreases |m|
  {
    if m != [] {
      var n := |m| - 1;
      EdgesAre(m[..n], f, g);
      SiteEdges(m[n].name, m[n].calls, f, g);
      MaySnoc(m, f, g);
      hide SomeEnters, MayEnter, EdgesOf;
      var before := AllEdges(m[..n]);
      assert AllEdges(m) == before + EdgesOf(m[n].name, m[n].calls);
      assert (f, g) in before + EdgesOf(m[n].name, m[n].calls) <==>
             (f, g) in before || (f, g) in EdgesOf(m[n].name, m[n].calls);
    }
  }

  lemma MaySnoc(m: seq<Func>, f: string, g: string)
    requires m != []
    ensures var n := |m| - 1;
            MayEnter(m, f, g) <==> MayEnter(m[..n], f, g) || (m[n].name == f && SomeEnters(m[n].calls, g))
  {
    hide SomeEnters;
    var n := |m| - 1;
    if MayEnter(m, f, g) {
      var i: nat :| i < |m| && m[i].name == f && SomeEnters(m[i].calls, g);
      if i < n { assert m[..n][i] == m[i]; }
    }
    if MayEnter(m[..n], f, g) {
      var i: nat :| i < n && m[..n][i].name == f && SomeEnters(m[..n][i].calls, g);
      assert m[i] == m[..n][i];
    }
  }

  lemma ChainsAre(m: seq<Func>, p: seq<string>)
    ensures IsChain(AllEdges(m), p) <==> CallChain(m, p)
    ensures IsCycle(AllEdges(m), p) <==> CallCycle(m, p)
  {
    hide AllEdges, MayEnter;
    forall k: nat | k + 1 < |p| ensures Calls(AllEdges(m), p, k) <==> Next(m, p, k) {
      EdgesAre(m, p[k], p[k + 1]);
    }
  }

  // ---- Chains ------------------------------------------------------------------------

  /** A call chain: each function calls the next. */
  ghost predicate IsChain(e: Edges, p: seq<string>) {
    p != [] && forall k: nat :: k + 1 < |p| ==> Calls(e, p, k)
  }

  ghost predicate Calls(e: Edges, p: seq<string>, k: nat)
    requires k + 1 < |p|
  {
    (p[k], p[k + 1]) in e
  }

  ghost predicate IsCycle(e: Edges, p: seq<string>) {
    IsChain(e, p) && |p| >= 2 && p[0] == p[|p| - 1]
  }

  ghost predicate Recursive(e: Edges) {
    exists p :: IsCycle(e, p)
  }

  ghost predicate ChainFrom(e: Edges, n: string, p: seq<string>) {
    IsChain(e, p) && p[0] == n
  }

  /** `d` is the number of functions on a longest chain from `n`. */
  ghost predicate Deepest(e: Edges, n: string, d: nat) {
    && (exists p :: ChainFrom(e, n, p) && |p| == d)
    && (forall p :: ChainFrom(e, n, p) ==> |p| <= d)
  }

  lemma ChainJoin(e: Edges, p: seq<string>, q: seq<string>)
    requires IsChain(e, p) && IsChain(e, q) && (p[|p| - 1], q[0]) in e
    ensures IsChain(e, p + q)
  {
    var r := p + q;
    forall k: nat | k + 1 < |r| ensures Calls(e, r, k) {
      if k + 1 < |p| {
        assert Calls(e, p, k);
      } else if k >= |p| {
        assert Calls(e, q, k - |p|);
      }
    }
  }

  lemma ChainTail(e: Edges, p: seq<string>)
    requires IsChain(e, p) && |p| > 1
    ensures ChainFrom(e, p[1], p[1..]) && (p[0], p[1]) in e
  {
    assert Calls(e, p, 0);
    forall k: nat | k + 1 < |p[1..]| ensures Calls(e, p[1..], k) { assert Calls(e, p, k + 1); }
  }

  /** Round a cycle any number of times. */
  lemma {:induction false} Pump(e: Edges, p: seq<string>, n: nat) returns (q: seq<string>)
    requires IsCycle(e, p)
    ensures ChainFrom(e, p[0], q) && |q| > n && q[|q| - 1] == p[0]
  {
    if n == 0 {
      q := p;
    } else {
      var r := Pump(e, p, n - 1);
      ChainTail(e, p);
      assert p[1..][|p[1..]| - 1] == p[0];
      ChainJoin(e, r, p[1..]);
      q := r + p[1..];
    }
  }

  /** A function with a deepest chain is on no cycle. */
  lemma DeepestNoCycle(e: Edges, p: seq<string>, d: nat)
    requires IsCycle(e, p)
    ensures !Deepest(e, p[0], d)
  {
    var q := Pump(e, p, d);
    assert ChainFrom(e, p[0], q);
  }

  // ---- Depth-first search ------------------------------------------------------------

  datatype Color = Gray | Black

  ghost predicate Reaches(e: Edges, a: string, b: string) {
    exists p :: ChainFrom(e, a, p) && p[|p| - 1] == b
  }

  lemma ReachesNext(e: Edges, a: string, b: string, c: string)
    requires Reaches(e, a, b) && (b, c) in e
    ensures Reaches(e, a, c)
  {
    var p :| ChainFrom(e, a, p) && p[|p| - 1] == b;
    ChainJoin(e, p, [c]);
    assert ChainFrom(e, a, p + [c]);
  }

  lemma ReachesSelf(e: Edges, a: string)
    ensures Reaches(e, a, a)
  {
    assert ChainFrom(e, a, [a]);
  }

  lemma BackEdge(e: Edges, g: string, n: string)
    requires Reaches(e, g, n) && (n, g) in e
    ensures Recursive(e)
  {
    var p :| ChainFrom(e, g, p) && p[|p| - 1] == n;
    ChainJoin(e, p, [g]);
    assert IsCycle(e, p + [g]);
  }

  ghost function Names(e: Edges): set<string> {
    (set k | 0 <= k < |e| :: e[k].0) + (set k | 0 <= k < |e| :: e[k].1)
  }

  /** The callees of `n`, in edge order. */
  function Callees(e: Edges, n: string): seq<string> {
    if e == [] then []
    else Callees(e[..|e| - 1], n) + if e[|e| - 1].0 == n then [e[|e| - 1].1] else []
  }

  lemma {:induction false} CalleesAre(e: Edges, n: string, c: string)
    ensures c in Callees(e, n) <==> (n, c) in e
    decreases |e|
  {
    if e != [] {
      var i := |e| - 1;
      CalleesAre(e[..i], n, c);
      assert e == e[..i] + [e[i]];
    }
  }

  class Search {
    const adj: map<string, seq<string>>
    ghost const e: Edges
    ghost const all: set<string>
    var color: map<string, Color>
    var memo: map<string, nat>

    constructor (adj: map<string, seq<string>>, ghost e: Edges, ghost all: set<string>)
      requires Adjacent(adj, e) && Names(e) <= all
      ensures Valid() && this.adj == adj && this.e == e && this.all == all && color == map[]
    {
      this.adj := adj;
      this.e := e;
      this.all := all;
      color := map[];
      memo := map[];
    }

    ghost predicate Valid()
      reads this
    {
      && Adjacent(adj, e) && Names(e) <= all
      && (forall n :: n in color && color[n].Black? ==> n in memo && Deepest(e, n, memo[n]))
    }

    ghost function Grays(): set<string>
      reads this
    {
      set n | n in color && color[n].Gray?
    }

    /** The length of the longest chain from `node`; `None` stands for the recursion panic. */
    method Depth(node: string) returns (r: Option<nat>)
      requires Valid() && node in all && node !in Grays()
      requires forall g <- Grays() :: Reaches(e, g, node)
      modifies this`color, this`memo
      ensures Valid()
      ensures r.None? ==> Recursive(e)
      ensures r.Some? ==> Deepest(e, node, r.value) && Grays() == old(Grays())
      ensures old(color).Keys <= color.Keys
      ensures r.Some? ==> node in color && color[node].Black?
      decreases all - color.Keys
    {
      hide Adjacent, Deepest, Reaches, IsChain, ChainFrom, BelowBy, Recursive, Names;
      if node in color {
        return Some(memo[node]);
      }
      color := color[node := Gray];
      ghost var grays := Grays();
      assert grays == old(Grays()) + {node};
      var callees := if node in adj then adj[node] else [];
      var deepest := 1;
      ghost var best := [node];
      OneChain(e, node);
      var k := 0;
      while k < |callees|
        invariant k <= |callees| && Valid() && Grays() == grays
        invariant node in color && old(color).Keys <= color.Keys
        invariant ChainFrom(e, node, best) && |best| == deepest
        invariant forall c :: 0 <= c < k ==> BelowBy(e, callees[c], deepest)
      {
        var callee := callees[k];
        EdgeTo(adj, e, all, node, callee);
        if callee in color && color[callee].Gray? {
          assert callee in grays;
          if callee == node { ReachesSelf(e, node); }
          BackEdge(e, callee, node);
          return None;
        }
        forall g <- Grays() ensures Reaches(e, g, callee) {
          if g == node { ReachesSelf(e, node); }
          ReachesNext(e, g, node, callee);
        }
        var below := Depth(callee);
        if below.None? { return None; }
        var d := below.value;
        ghost var was := deepest;
        best := Longer(e, node, callee, best, d);
        forall c | 0 <= c < k ensures BelowBy(e, callees[c], |best|) { BelowMore(e, callees[c], was, |best|); }
        deepest := Max(deepest, 1 + d);
        k := k + 1;
      }
      assert |best| == deepest;
      NodeDeepest(adj, e, node, callees, best);
      color := color[node := Black];
      memo := memo[node := deepest];
      assert Grays() == old(Grays());
      return Some(deepest);
    }
  }

  /** The adjacency lists agree with the edges. */
  ghost predicate Adjacent(adj: map<string, seq<string>>, e: Edges) {
    && (forall n :: n in adj ==> adj[n] == Callees(e, n))
    && (forall k :: 0 <= k < |e| ==> e[k].0 in adj)
  }

  lemma EdgeTo(adj: map<string, seq<string>>, e: Edges, all: set<string>, n: string, c: string)
    requires Adjacent(adj, e) && Names(e) <= all && n in adj && c in adj[n]
    ensures (n, c) in e && c in all
  {
    CalleesAre(e, n, c);
    var k :| 0 <= k < |e| && e[k] == (n, c);
    assert e[k].1 in Names(e);
  }

  /** Every chain from `c` is shorter than `d`. */
  ghost predicate BelowBy(e: Edges, c: string, d: nat) {
    forall p :: ChainFrom(e, c, p) ==> |p| < d
  }

  lemma OneChain(e: Edges, n: string)
    ensures ChainFrom(e, n, [n])
  {
  }

  lemma BelowMore(e: Edges, c: string, d: nat, d': nat)
    requires BelowBy(e, c, d) && d <= d'
    ensures BelowBy(e, c, d')
  {
  }

  lemma Longer(e: Edges, n: string, c: string, best: seq<string>, d: nat) returns (p: seq<string>)
    requires ChainFrom(e, n, best) && (n, c) in e && Deepest(e, c, d)
    ensures ChainFrom(e, n, p) && |p| == Max(|best|, 1 + d)
    ensures BelowBy(e, c, |p|)
  {
    if |best| >= 1 + d {
      p := best;
    } else {
      var q :| ChainFrom(e, c, q) && |q| == d;
      ChainJoin(e, [n], q);
      p := [n] + q;
    }
  }

  lemma NodeDeepest(adj: map<string, seq<string>>, e: Edges, n: string, callees: seq<string>, best: seq<string>)
    requires Adjacent(adj, e) && callees == (if n in adj then adj[n] else [])
    requires ChainFrom(e, n, best)
    requires forall c :: 0 <= c < |callees| ==> BelowBy(e, callees[c], |best|)
    ensures Deepest(e, n, |best|)
  {
    forall p | ChainFrom(e, n, p) ensures |p| <= |best| {
      if |p| > 1 {
        ChainTail(e, p);
        var k :| 0 <= k < |e| && e[k] == (n, p[1]);
        assert e[k].0 in adj;
        CalleesAre(e, n, p[1]);
        var c :| 0 <= c < |callees| && callees[c] == p[1];
        assert BelowBy(e, callees[c], |best|);
      }
    }
  }

  // ---- Building ----------------------------------------------------------------------

  datatype Graph = Graph(edges: Edges, maxDepth: nat)

  lemma CalleesSnoc(e: Edges, a: string, b: string, n: string)
    ensures Callees(e + [(a, b)], n) == Callees(e, n) + if a == n then [b] else []
  {
    assert (e + [(a, b)])[..|e|] == e;
  }

  /** Add one site's edges to the list and to the adjacency of its function. */
  method AddSite(f: string, s: Site, edges: Edges, adj: map<string, seq<string>>)
      returns (edges': Edges, adj': map<string, seq<string>>)
    requires Adjacent(adj, edges) && f in adj
    ensures edges' == edges + EdgesTo(f, Targets(s)) && Adjacent(adj', edges') && adj'.Keys == adj.Keys
  {
    edges', adj' := edges, adj;
    var targets := Targets(s);
    for k := 0 to |targets|
      invariant edges' == edges + EdgesTo(f, targets[..k]) && Adjacent(adj', edges') && adj'.Keys == adj.Keys
    {
      ghost var before, was := edges', adj';
      edges' := edges' + [(f, targets[k])];
      adj' := adj'[f := adj'[f] + [targets[k]]];
      forall n | n in adj' ensures adj'[n] == Callees(edges', n) {
        CalleesSnoc(before, f, targets[k], n);
        assert n in was;
      }
      assert EdgesTo(f, targets[..k + 1]) == EdgesTo(f, targets[..k]) + [(f, targets[k])];
    }
    assert targets[..|targets|] == targets;
  }

  lemma NoCallees(e: Edges, n: string)
    requires forall k :: 0 <= k < |e| ==> e[k].0 != n
    ensures Callees(e, n) == []
  {
  }

  /** All edges, and the adjacency lists seeded with every function. */
  method Collect(m: seq<Func>) returns (edges: Edges, adj: map<string, seq<string>>)
    ensures edges == AllEdges(m) && Adjacent(adj, edges)
    ensures forall k :: 0 <= k < |m| ==> m[k].name in adj
  {
    hide Adjacent, Targets;
    edges, adj := [], map[];
    NoEdges();
    for i := 0 to |m|
      invariant edges == AllEdges(m[..i]) && Adjacent(adj, edges)
      invariant forall k :: 0 <= k < i ==> m[k].name in adj
    {
      var f := m[i];
      if f.name !in adj {
        Seeded(adj, edges, f.name);
        adj := adj[f.name := []];
      }
      ghost var before := edges;
      for j := 0 to |f.calls|
        invariant edges == before + EdgesOf(f.name, f.calls[..j]) && Adjacent(adj, edges) && f.name in adj
        invariant forall k :: 0 <= k < i ==> m[k].name in adj
      {
        ghost var keys := adj.Keys;
        edges, adj := AddSite(f.name, f.calls[j], edges, adj);
        assert f.calls[..j + 1][..j] == f.calls[..j];
        assert forall n :: n in keys ==> n in adj;
      }
      assert f.calls[..|f.calls|] == f.calls && m[..i + 1][..i] == m[..i];
    }
    assert m[..|m|] == m;
  }

  lemma NoEdges()
    ensures Adjacent(map[], [])
  {
  }

  lemma Seeded(adj: map<string, seq<string>>, e: Edges, n: string)
    requires Adjacent(adj, e) && n !in adj
    ensures Adjacent(adj[n := []], e)
  {
    NoCallees(e, n);
  }

  /** The edges are the call relation, which has no cycle, and `maxDepth` is the number of
      functions on a longest chain of it. */
  ghost predicate GraphOf(m: seq<Func>, g: Graph) {
    && (forall a, b :: (a, b) in g.edges <==> MayEnter(m, a, b))
    && (forall p :: !CallCycle(m, p))
    && (forall p :: CallChain(m, p) ==> |p| <= g.maxDepth)
    && exists p :: CallChain(m, p) && |p| == g.maxDepth
  }

  /** The graph; `None` stands for the recursion panic. */
  method Build(m: seq<Func>) returns (r: Option<Graph>)
    ensures r.None? <==> exists p :: CallCycle(m, p)
    ensures r.Some? ==> GraphOf(m, r.value) && r.value.edges == AllEdges(m)
    ensures r.Some? && m == [] ==> r.value.maxDepth == 1
  {
    r := BuildEdges(m);
    hide CallCycle, CallChain, MayEnter, AllEdges, IsChain, IsCycle;
    forall p ensures IsCycle(AllEdges(m), p) <==> CallCycle(m, p) { ChainsAre(m, p); }
    forall p ensures IsChain(AllEdges(m), p) <==> CallChain(m, p) { ChainsAre(m, p); }
    forall a, b ensures (a, b) in AllEdges(m) <==> MayEnter(m, a, b) { EdgesAre(m, a, b); }
  }

  method BuildEdges(m: seq<Func>) returns (r: Option<Graph>)
    ensures r.None? <==> Recursive(AllEdges(m))
    ensures r.Some? ==> r.value.edges == AllEdges(m) && DepthExact(r.value)
    ensures r.Some? && m == [] ==> r.value.maxDepth == 1
  {
    hide Recursive, Deepest, IsChain, ChainFrom, Adjacent, Within, AllEdges, Names;
    var edges, adj := Collect(m);
    ghost var all := Names(edges) + set k | 0 <= k < |m| :: m[k].name;
    var search := new Search(adj, edges, all);
    var maxDepth := 1;
    ghost var best: seq<string> := [""];
    OneChain(edges, "");
    for i := 0 to |m|
      invariant search.Valid() && search.e == edges && search.all == all && search.Grays() == {}
      invariant maxDepth > 0 && |best| == maxDepth && ChainFrom(edges, best[0], best)
      invariant forall k :: 0 <= k < i ==> Within(edges, m[k].name, maxDepth)
      invariant m == [] ==> maxDepth == 1
    {
      assert m[i].name in all;
      var d := search.Depth(m[i].name);
      if d.None? { return None; }
      ghost var was := maxDepth;
      best := Best(edges, m[i].name, d.value, best);
      maxDepth := Max(maxDepth, d.value);
      forall k | 0 <= k < i ensures Within(edges, m[k].name, maxDepth) {
        WithinMore(edges, m[k].name, was, maxDepth);
      }
    }
    AllWithin(m, edges, maxDepth);
    Exact(Graph(edges, maxDepth), best);
    return Some(Graph(edges, maxDepth));
  }

  lemma Exact(g: Graph, best: seq<string>)
    requires best != [] && ChainFrom(g.edges, best[0], best) && |best| == g.maxDepth
    requires !Recursive(g.edges) && forall p :: IsChain(g.edges, p) ==> |p| <= g.maxDepth
    ensures DepthExact(g)
  {
  }

  lemma WithinMore(e: Edges, n: string, d: nat, d': nat)
    requires Within(e, n, d) && d <= d'
    ensures Within(e, n, d')
  {
    hide Deepest, ChainFrom;
  }

  ghost predicate Within(e: Edges, n: string, d: nat) {
    (exists k: nat :: k <= d && Deepest(e, n, k)) && forall p :: ChainFrom(e, n, p) ==> |p| <= d
  }

  lemma Best(e: Edges, n: string, d: nat, best: seq<string>) returns (p: seq<string>)
    requires Deepest(e, n, d) && best != [] && ChainFrom(e, best[0], best)
    ensures p != [] && ChainFrom(e, p[0], p) && |p| == Max(|best|, d) && Within(e, n, |p|)
  {
    if |best| >= d { p := best; } else { p :| ChainFrom(e, n, p) && |p| == d; }
  }

  /** `maxDepth` is the number of functions on a longest call chain. */
  ghost predicate DepthExact(g: Graph) {
    && !Recursive(g.edges)
    && (forall p :: IsChain(g.edges, p) ==> |p| <= g.maxDepth)
    && exists p :: IsChain(g.edges, p) && |p| == g.maxDepth
  }

  lemma {:induction false} CallerIsFunction(m: seq<Func>, k: nat) returns (i: nat)
    requires k < |AllEdges(m)|
    ensures i < |m| && m[i].name == AllEdges(m)[k].0
    decreases |m|
  {
    var n := |m| - 1;
    var e := AllEdges(m[..n]);
    if k < |e| {
      i := CallerIsFunction(m[..n], k);
    } else {
      i := n;
      OneCaller(m[n].name, m[n].calls, k - |e|);
    }
  }

  lemma {:induction false} OneCaller(f: string, sites: seq<Site>, k: nat)
    requires k < |EdgesOf(f, sites)|
    ensures EdgesOf(f, sites)[k].0 == f
    decreases |sites|
  {
    var n := |sites| - 1;
    if k < |EdgesOf(f, sites[..n])| { OneCaller(f, sites[..n], k); }
  }

  /** Every chain starts at a function of the module or is a single name. */
  lemma AllWithin(m: seq<Func>, e: Edges, d: nat)
    requires e == AllEdges(m) && d >= 1 && forall k :: 0 <= k < |m| ==> Within(e, m[k].name, d)
    ensures !Recursive(e) && forall p :: IsChain(e, p) ==> |p| <= d
  {
    forall p | IsChain(e, p) ensures |p| <= d && !IsCycle(e, p) {
      if |p| > 1 {
        ChainTail(e, p);
        var k :| 0 <= k < |e| && e[k] == (p[0], p[1]);
        var i := CallerIsFunction(m, k);
        assert Within(e, m[i].name, d) && ChainFrom(e, p[0], p);
        if IsCycle(e, p) {
          var c: nat :| c <= d && Deepest(e, m[i].name, c);
          DeepestNoCycle(e, p, c);
        }
      }
    }
  }

  /** The stack check: every call chain fits the hardware stack, or it panics. */
  predicate CheckDepth(g: Graph, limit: nat) {
    g.maxDepth <= limit
  }

  /** The check passes exactly when no call chain is longer than the limit. */
  lemma CheckExact(m: seq<Func>, g: Graph, limit: nat)
    requires GraphOf(m, g)
    ensures CheckDepth(g, limit) <==> forall p :: CallChain(m, p) ==> |p| <= limit
  {
    hide MayEnter, CallCycle, CallChain;
    var p :| CallChain(m, p) && |p| == g.maxDepth;
  }
}
