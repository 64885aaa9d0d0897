/** Slot addresses, and the safety of the overlay along every chain of calls. */
module Frames {
  import opened Wrappers
  import opened Devices
  import opened Placement
  import opened Ir
  import opened Cfg
  import opened Overlay

  // ---- Heat order --------------------------------------------------------------------

  ghost predicate IsPermutation(perm: seq<nat>, n: nat) {
    && |perm| == n
    && (forall k :: 0 <= k < n ==> perm[k] < n)
    && (forall j, k :: 0 <= j < k < n ==> perm[j] != perm[k])
  }

  /** `a` is placed before `b`: hotter, or equally hot and earlier in the colouring. */
  predicate HotterFirst(heat: seq<nat>, a: nat, b: nat)
    requires a < |heat| && b < |heat|
  {
    heat[a] > heat[b] || (heat[a] == heat[b] && a < b)
  }

  /** The stable order by falling heat. */
  ghost predicate ByHeat(heat: seq<nat>, perm: seq<nat>) {
    IsPermutation(perm, |heat|) && forall j, k :: 0 <= j < k < |perm| ==> HotterFirst(heat, perm[j], perm[k])
  }

  method HeatOrder(heat: seq<nat>) returns (perm: seq<nat>)
    ensures ByHeat(heat, perm)
  {
    perm := [];
    for n := 0 to |heat|
      invariant IsPermutation(perm, n)
      invariant forall j, k :: 0 <= j < k < |perm| ==> HotterFirst(heat, perm[j], perm[k])
    {
      var i := 0;
      while i < |perm| && heat[perm[i]] >= heat[n]
        invariant 0 <= i <= |perm|
        invariant forall j :: 0 <= j < i ==> heat[perm[j]] >= heat[n]
      {
        i := i + 1;
      }
      InsertedOrdered(heat, perm, i, Inserted(perm, i));
      perm := Inserted(perm, i);
    }
  }

  /** Insert the next index `|perm|` at place `i` of an order. */
  function Inserted(perm: seq<nat>, i: nat): (r: seq<nat>)
    requires i <= |perm|
    ensures |r| == |perm| + 1
    ensures forall k :: 0 <= k < |r| ==> r[k] == if k < i then perm[k] else if k == i then |perm| else perm[k - 1]
  {
    perm[..i] + [|perm|] + perm[i..]
  }

  lemma InsertedOrdered(heat: seq<nat>, perm: seq<nat>, i: nat, r: seq<nat>)
    requires i <= |perm| < |heat| && IsPermutation(perm, |perm|) && r == Inserted(perm, i)
    requires forall j, k :: 0 <= j < k < |perm| ==> HotterFirst(heat, perm[j], perm[k])
    requires forall j :: 0 <= j < i ==> heat[perm[j]] >= heat[|perm|]
    requires i < |perm| ==> heat[perm[i]] < heat[|perm|]
    ensures IsPermutation(r, |perm| + 1)
    ensures forall j, k :: 0 <= j < k < |r| ==> HotterFirst(heat, r[j], r[k])
  {
    forall j, k | 0 <= j < k < |r| ensures HotterFirst(heat, r[j], r[k]) {
      var x := if j < i then perm[j] else if j == i then |perm| else perm[j - 1];
      var y := if k < i then perm[k] else if k == i then |perm| else perm[k - 1];
      assert r[j] == x && r[k] == y;
      if j == i && i < k - 1 { assert HotterFirst(heat, perm[i], perm[k - 1]); }
    }
  }

  function Permuted(widths: seq<nat>, perm: seq<nat>): (r: seq<nat>)
    requires forall k :: 0 <= k < |perm| ==> perm[k] < |widths|
    ensures |r| == |perm| && forall k :: 0 <= k < |perm| ==> r[k] == widths[perm[k]]
  {
    if perm == [] then [] else [widths[perm[0]]] + Permuted(widths, perm[1..])
  }

  /** The frame begins inside the access window and ends past it. */
  predicate Straddles(base: nat, winEnd: nat, fr: FuncFrame) {
    base < winEnd < base + Sum(fr.widths)
  }

  /** The slot order of a frame that straddles the access window's end, or `None` to keep
      the colouring's. */
  method WindowOrder(base: nat, winEnd: nat, fr: FuncFrame) returns (r: Option<seq<nat>>)
    requires ValidFrame(fr)
    ensures r.Some? <==> Straddles(base, winEnd, fr)
    ensures r.Some? ==> ByHeat(fr.heat, r.value)
  {
    if base >= winEnd || base + Sum(fr.widths) <= winEnd { return None; }
    var perm := HeatOrder(fr.heat);
    r := Some(perm);
  }

  // ---- Slot addresses ----------------------------------------------------------------

  /** The addresses come from placing the slots one after another in some order that ends
      where the colouring's own order ends. */
  ghost predicate PlacedInOrder(d: Device, base: nat, widths: seq<nat>, order: seq<nat>, addrs: seq<nat>) {
    && IsPermutation(order, |widths|) && |addrs| == |widths|
    && FrameEnd(d, base, widths).Some?
    && FrameEnd(d, base, Permuted(widths, order)) == FrameEnd(d, base, widths)
    && forall k :: 0 <= k < |order| ==> addrs[order[k]] == SlotAddrs(d, base, Permuted(widths, order))[k]
  }

  function Identity(n: nat): (r: seq<nat>)
    ensures |r| == n && forall k :: 0 <= k < n ==> r[k] == k
  {
    if n == 0 then [] else Identity(n - 1) + [n - 1]
  }

  /** Ordered by heat, the frame ends where it ends in the colouring's order. */
  ghost predicate EndsAlike(d: Device, base: nat, fr: FuncFrame)
    requires ValidFrame(fr)
  {
    forall hot :: ByHeat(fr.heat, hot) ==> FrameEnd(d, base, Permuted(fr.widths, hot)) == FrameEnd(d, base, fr.widths)
  }

  /** The order of a frame's slots: by heat when that gains window bytes and moves no end,
      else the colouring's. A frame some callee dips into keeps the colouring's order,
      because the dipped bases were derived from it. */
  method SlotOrder(d: Device, base: nat, fr: FuncFrame, winEnd: Option<nat>, dipped: bool)
    returns (order: seq<nat>)
    requires d.Valid() && ValidFrame(fr)
    ensures IsPermutation(order, |fr.widths|)
    ensures FrameEnd(d, base, Permuted(fr.widths, order)) == FrameEnd(d, base, fr.widths)
    ensures order == Identity(|fr.widths|)
      || (!dipped && winEnd.Some? && Straddles(base, winEnd.value, fr) && ByHeat(fr.heat, order))
    ensures !dipped && winEnd.Some? && Straddles(base, winEnd.value, fr) && EndsAlike(d, base, fr) ==>
      ByHeat(fr.heat, order)
  {
    order := Identity(|fr.widths|);
    PermutedIdentity(fr.widths);
    if !dipped && winEnd.Some? {
      var perm := WindowOrder(base, winEnd.value, fr);
      if perm.Some? {
        var e := ComputeFrameEnd(d, base, Permuted(fr.widths, perm.value));
        var e0 := ComputeFrameEnd(d, base, fr.widths);
        if e == e0 { order := perm.value; }
      }
    }
  }

  /** Slot addresses of one frame. */
  method PlaceFrame(d: Device, base: nat, widths: seq<nat>, order: seq<nat>) returns (addrs: seq<nat>)
    requires d.Valid() && IsPermutation(order, |widths|) && FrameEnd(d, base, widths).Some?
    requires FrameEnd(d, base, Permuted(widths, order)) == FrameEnd(d, base, widths)
    requires forall k :: 0 <= k < |widths| ==> widths[k] <= 255
    ensures PlacedInOrder(d, base, widths, order, addrs)
  {
    var n := |widths|;
    ghost var ws := Permuted(widths, order);
    addrs := seq(n, _ => 0);
    var addr := base;
    for k := 0 to n
      invariant |addrs| == n
      invariant FrameEnd(d, base, ws[..k]) == Some(addr)
      invariant forall j :: 0 <= j < k ==> addrs[order[j]] == SlotAddrs(d, base, ws)[j]
    {
      var slot := order[k];
      var a := PlaceContiguous(d, addr, widths[slot]);
      NextSlot(d, base, ws, k, addr);
      addrs := addrs[slot := a.value];
      addr := a.value + widths[slot];
      PrefixEnd(d, base, ws, k);
    }
  }

  lemma PermutedIdentity(widths: seq<nat>)
    ensures IsPermutation(Identity(|widths|), |widths|)
    ensures Permuted(widths, Identity(|widths|)) == widths
  {
  }

  lemma {:induction false} NextSlot(d: Device, base: nat, ws: seq<nat>, k: nat, addr: nat)
    requires FrameEnd(d, base, ws).Some? && k < |ws| && FrameEnd(d, base, ws[..k]) == Some(addr)
    ensures Placement.Place(d, addr, ws[k]) == Some(SlotAddrs(d, base, ws)[k])
    decreases |ws|
  {
    var b := Placement.Place(d, base, ws[0]).value;
    if k > 0 {
      assert ws[..k][1..] == ws[1..][..k - 1];
      NextSlot(d, b + ws[0], ws[1..], k - 1, addr);
    }
  }

  /** The slots of a frame lie in banks between its base and its end, apart from each other. */
  ghost predicate Apart(d: Device, base: nat, widths: seq<nat>, addrs: seq<nat>) {
    && |addrs| == |widths| && FrameEnd(d, base, widths).Some?
    && (forall s :: 0 <= s < |widths| ==>
          base <= addrs[s] && addrs[s] + widths[s] <= FrameEnd(d, base, widths).value
            && Feasible(d, addrs[s], widths[s]))
    && (forall s, t :: 0 <= s < |widths| && 0 <= t < |widths| && s != t ==>
          addrs[s] + widths[s] <= addrs[t] || addrs[t] + widths[t] <= addrs[s])
  }

  /** However the slots are ordered, they are apart. */
  lemma SlotsApart(d: Device, base: nat, widths: seq<nat>, order: seq<nat>, addrs: seq<nat>)
    requires d.Valid() && PlacedInOrder(d, base, widths, order, addrs)
    ensures Apart(d, base, widths, addrs)
  {
    hide IsPermutation, Feasible, FrameEnd, SlotAddrs;
    forall s, t | 0 <= s < |widths| && 0 <= t < |widths|
      ensures base <= addrs[s] && addrs[s] + widths[s] <= FrameEnd(d, base, widths).value
        && Feasible(d, addrs[s], widths[s])
      ensures s != t ==> addrs[s] + widths[s] <= addrs[t] || addrs[t] + widths[t] <= addrs[s]
    {
      TwoSlotsApart(d, base, widths, order, addrs, s, t);
    }
  }

  lemma TwoSlotsApart(d: Device, base: nat, widths: seq<nat>, order: seq<nat>, addrs: seq<nat>, s: nat, t: nat)
    requires d.Valid() && PlacedInOrder(d, base, widths, order, addrs) && s < |widths| && t < |widths|
    ensures base <= addrs[s] && addrs[s] + widths[s] <= FrameEnd(d, base, widths).value
      && Feasible(d, addrs[s], widths[s])
    ensures s != t ==> addrs[s] + widths[s] <= addrs[t] || addrs[t] + widths[t] <= addrs[s]
  {
    hide Feasible;
    var ws := Permuted(widths, order);
    SlotsInOrder(d, base, ws);
    var j := PermutationIsOnto(order, |widths|, s);
    var k := PermutationIsOnto(order, |widths|, t);
    assert ws[j] == widths[s] && ws[k] == widths[t];
  }

  lemma PermutationIsOnto(perm: seq<nat>, n: nat, s: nat) returns (k: nat)
    requires IsPermutation(perm, n) && s < n
    ensures k < |perm| && perm[k] == s
  {
    if s in perm {
      k :| 0 <= k < |perm| && perm[k] == s;
    } else {
      k := 0;
      var image := set k | 0 <= k < n :: perm[k];
      ImageSize(perm, n);
      assert image <= UpTo(n) - {s};
      SubsetSize(image, UpTo(n) - {s});
      UpToSize(n);
    }
  }

  lemma {:induction false} ImageSize(perm: seq<nat>, n: nat)
    requires n <= |perm| && forall j, k :: 0 <= j < k < |perm| ==> perm[j] != perm[k]
    ensures |set k | 0 <= k < n :: perm[k]| == n
  {
    if n > 0 {
      ImageSize(perm, n - 1);
      var prev := set k | 0 <= k < n - 1 :: perm[k];
      assert (set k | 0 <= k < n :: perm[k]) == prev + {perm[n - 1]};
      assert perm[n - 1] !in prev;
    }
  }

  lemma {:induction false} SubsetSize<T>(a: set<T>, b: set<T>)
    requires a <= b
    ensures |a| <= |b|
  {
    assert b == a + (b - a);
  }

  // ---- Chains of calls ---------------------------------------------------------------

  /** Some call reaches a frame that starts below `c`'s end. */
  ghost predicate DippedInto(p: Program, base: map<nat, nat>, c: nat)
    requires Valid(p) && Settled(p, base)
  {
    exists f: nat, k: nat :: SiteDips(p, base, c, f, k)
  }

  ghost predicate SiteDips(p: Program, base: map<nat, nat>, c: nat, f: nat, k: nat)
    requires Valid(p) && Settled(p, base)
  {
    f < |p.funcs| && k < |p.sites[f]| && p.sites[f][k].caller == c
    && Placed(p, base, c) && Placed(p, base, f) && base[f] < EndOf(p, base, c)
  }

  lemma NoDipWhenOff(p: Program, base: map<nat, nat>, c: nat, f: nat, k: nat)
    requires Valid(p) && Settled(p, base) && p.dip == Off
    ensures !SiteDips(p, base, c, f, k)
  {
    if f < |p.funcs| && k < |p.sites[f]| {
      assert Edge(p.edges, p.sites[f][k].caller, f);
      assert Placed(p, base, f);
      assert AboveCallers(p, base, f, base[f]);
    }
  }

  method FindDipped(p: Program, base: map<nat, nat>) returns (dipped: set<nat>)
    requires Valid(p) && Settled(p, base)
    ensures forall c: nat :: c in dipped <==> DippedInto(p, base, c)
  {
    dipped := {};
    if p.dip == Off {
      forall c: nat, f: nat, k: nat ensures !SiteDips(p, base, c, f, k) {
        NoDipWhenOff(p, base, c, f, k);
      }
      return;
    }
    for f := 0 to |p.funcs|
      invariant forall c: nat :: c in dipped <==> exists g: nat, k: nat :: g < f && SiteDips(p, base, c, g, k)
    {
      assert Placed(p, base, f);
      ghost var before := dipped;
      for k := 0 to |p.sites[f]|
        invariant forall c: nat :: c in dipped <==>
          c in before || exists j: nat :: j < k && SiteDips(p, base, c, f, j)
      {
        var c := p.sites[f][k].caller;
        assert Edge(p.edges, c, f);
        assert Placed(p, base, c);
        var e := ComputeFrameEnd(p.d, base[c], p.funcs[c].widths);
        ghost var old_ := dipped;
        if base[f] < e.value {
          assert SiteDips(p, base, c, f, k);
          dipped := dipped + {c};
        }
        forall a: nat ensures a in dipped <==> a in before || exists j: nat :: j < k + 1 && SiteDips(p, base, a, f, j) {
          assert a in dipped <==> a in old_ || SiteDips(p, base, a, f, k);
        }
      }
    }
    forall c: nat ensures c in dipped <==> DippedInto(p, base, c) {
    }
  }

  /** Every frame's slot addresses, with the order each was placed in. */
  ghost predicate SlotsPlaced(p: Program, base: map<nat, nat>, orders: seq<seq<nat>>, addrs: seq<seq<nat>>)
    requires Valid(p) && Settled(p, base)
  {
    && |orders| == |addrs| == |p.funcs|
    && forall f: nat :: f < |p.funcs| ==>
         && Placed(p, base, f)
         && PlacedInOrder(p.d, base[f], p.funcs[f].widths, orders[f], addrs[f])
         && (DippedInto(p, base, f) ==> orders[f] == Identity(|p.funcs[f].widths|))
  }

  method PlaceAll(p: Program, base: map<nat, nat>) returns (addrs: seq<seq<nat>>, ghost orders: seq<seq<nat>>)
    requires Valid(p) && Settled(p, base)
    ensures SlotsPlaced(p, base, orders, addrs)
    ensures |addrs| == |p.funcs| && forall f: nat :: f < |p.funcs| ==>
      Placed(p, base, f) && Apart(p.d, base[f], p.funcs[f].widths, addrs[f])
  {
    var dipped := FindDipped(p, base);
    var winEnd := if p.d.accessBank.Some? then Some(p.d.accessBank.value.hi + 1) else None;
    addrs, orders := [], [];
    for f := 0 to |p.funcs|
      invariant |addrs| == |orders| == f
      invariant forall g: nat :: g < f ==>
        && Placed(p, base, g)
        && PlacedInOrder(p.d, base[g], p.funcs[g].widths, orders[g], addrs[g])
        && (DippedInto(p, base, g) ==> orders[g] == Identity(|p.funcs[g].widths|))
        && Apart(p.d, base[g], p.funcs[g].widths, addrs[g])
    {
      hide Apart;
      assert Placed(p, base, f);
      var o := SlotOrder(p.d, base[f], p.funcs[f], winEnd, f in dipped);
      var a := PlaceFrame(p.d, base[f], p.funcs[f].widths, o);
      SlotsApart(p.d, base[f], p.funcs[f].widths, o, a);
      addrs, orders := addrs + [a], orders + [o];
    }
  }

  /** A chain of calls: `chain[i]` calls `chain[i + 1]` at `calls[i]`. */
  ghost predicate IsChain(p: Program, chain: seq<nat>, calls: seq<Site>)
    requires Valid(p)
  {
    && |chain| == |calls| + 1
    && (forall i :: 0 <= i < |chain| ==> chain[i] < |p.funcs|)
    && forall i :: 0 <= i < |calls| ==> calls[i] in p.sites[chain[i + 1]] && calls[i].caller == chain[i]
  }

  lemma {:induction false} ChainRises(p: Program, base: map<nat, nat>, chain: seq<nat>, calls: seq<Site>, i: nat,
                                      j: nat)
    requires Valid(p) && Settled(p, base) && IsChain(p, chain, calls) && i <= j < |chain|
    ensures Placed(p, base, chain[i]) && Placed(p, base, chain[j]) && base[chain[i]] <= base[chain[j]]
    decreases j - i
  {
    assert Placed(p, base, chain[i]) && Placed(p, base, chain[j]);
    if i < j {
      ChainRises(p, base, chain, calls, i, j - 1);
      var f := chain[j];
      var k :| 0 <= k < |p.sites[f]| && p.sites[f][k] == calls[j - 1];
      assert Edge(p.edges, p.sites[f][k].caller, f);
      assert AboveCallers(p, base, f, base[f]);
    }
  }

  /** The frames called at a site start past the slot of every value live across it. */
  lemma LiveSlotBelowCallee(p: Program, base: map<nat, nat>, orders: seq<seq<nat>>, addrs: seq<seq<nat>>,
                            f: nat, k: nat, v: Name)
    requires Valid(p) && Settled(p, base) && SlotsPlaced(p, base, orders, addrs)
    requires f < |p.funcs| && k < |p.sites[f]| && p.sites[f][k].caller < |p.funcs|
    requires LiveAcross(p.funcs[p.sites[f][k].caller], p.sites[f][k], v)
    ensures var c := p.sites[f][k].caller; var fr := p.funcs[c];
      ValidFrame(fr) && f in base && |addrs[c]| == |fr.widths|
      && addrs[c][fr.live[v].slot] + fr.widths[fr.live[v].slot] <= base[f]
  {
    var s := p.sites[f][k];
    var c := s.caller;
    var fr := p.funcs[c];
    assert ValidFrame(fr) && Placed(p, base, c) && Placed(p, base, f);
    SlotsApart(p.d, base[c], fr.widths, orders[c], addrs[c]);
    if base[f] < EndOf(p, base, c) {
      assert SiteDips(p, base, c, f, k);
      PermutedIdentity(fr.widths);
      assert AboveCallers(p, base, f, base[f]);
      var n := fr.live[v].slot;
      assert orders[c][n] == n;
      assert addrs[c][n] == SlotAddrs(p.d, base[c], fr.widths)[n];
    }
  }

  /** Overlay safety: on every chain of calls, the slot of a value live across its function's
      call site shares no byte with any slot of any later frame of the chain. */
  lemma OverlaySafe(p: Program, base: map<nat, nat>, orders: seq<seq<nat>>, addrs: seq<seq<nat>>,
                    chain: seq<nat>, calls: seq<Site>, i: nat, j: nat, v: Name, t: nat)
    requires Valid(p) && Settled(p, base) && SlotsPlaced(p, base, orders, addrs) && IsChain(p, chain, calls)
    requires i < j < |chain| && LiveAcross(p.funcs[chain[i]], calls[i], v) && t < |p.funcs[chain[j]].widths|
    ensures var fr := p.funcs[chain[i]];
      ValidFrame(fr) && |addrs[chain[i]]| == |fr.widths| && |addrs[chain[j]]| == |p.funcs[chain[j]].widths|
      && addrs[chain[i]][fr.live[v].slot] + fr.widths[fr.live[v].slot] <= addrs[chain[j]][t]
  {
    hide Settled, LiveAcross;
    var f := chain[i + 1];
    var k :| 0 <= k < |p.sites[f]| && p.sites[f][k] == calls[i];
    LiveSlotBelowCallee(p, base, orders, addrs, f, k, v);
    ChainRises(p, base, chain, calls, i + 1, j);
    var g := chain[j];
    SlotsApart(p.d, base[g], p.funcs[g].widths, orders[g], addrs[g]);
  }
}
