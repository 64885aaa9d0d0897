/** Placing globals: the sequential pass and the largest-first bin-pack, around pinned
    addresses. Objects are taken to fit a region, so nothing straddles banks. */
module Globals {
  import opened Wrappers
  import opened Devices

  datatype Pin = Pin(addr: nat, size: nat)

  datatype Global = Global(name: nat, size: nat)

  /** A placed object. */
  datatype Spot = Spot(addr: nat, size: nat)

  predicate Overlaps(a: nat, w: nat, p: Pin) {
    a < p.addr + p.size && a + w > p.addr
  }

  predicate Aligned(a: nat, w: nat)
    requires w > 0
  {
    w > 1 ==> a % 2 == 0
  }

  function AlignTo(a: nat, w: nat): (r: nat)
    requires w > 0
    ensures a <= r <= a + 1 && Aligned(r, w)
    ensures forall b: nat :: a <= b && Aligned(b, w) ==> r <= b
  {
    if w > 1 && a % 2 != 0 then a + (2 - a % 2) else a
  }

  predicate InBank(d: Device, k: nat, a: nat, w: nat)
    requires k < |d.banks|
  {
    d.banks[k].lo <= a && a + w <= d.banks[k].hi + 1
  }

  predicate ClearOf(fixed: seq<Pin>, a: nat, w: nat) {
    forall p <- fixed :: a + w <= p.addr || p.addr + p.size <= a
  }

  /** A place in bank `k` for `w` bytes. */
  predicate Feasible(d: Device, fixed: seq<Pin>, k: nat, a: nat, w: nat)
    requires k < |d.banks| && w > 0
  {
    InBank(d, k, a, w) && (w == 1 || a % 2 == 0) && ClearOf(fixed, a, w)
  }

  /** The first pin a placement overlaps. */
  function FirstHit(fixed: seq<Pin>, a: nat, w: nat): (r: Option<nat>)
    ensures r.Some? ==> r.value < |fixed| && Overlaps(a, w, fixed[r.value])
    ensures r.None? ==> ClearOf(fixed, a, w)
  {
    if fixed == [] then None
    else if Overlaps(a, w, fixed[0]) then Some(0)
    else match FirstHit(fixed[1..], a, w) case None => None case Some(k) => Some(k + 1)
  }

  /** How many pins end above `a`: each bump passes one of them for good. */
  function EndingAbove(fixed: seq<Pin>, a: nat): nat {
    if fixed == [] then 0 else (if fixed[0].addr + fixed[0].size > a then 1 else 0) + EndingAbove(fixed[1..], a)
  }

  lemma {:induction false} FewerAbove(fixed: seq<Pin>, a: nat, b: nat, k: nat)
    requires a <= b
    ensures EndingAbove(fixed, b) <= EndingAbove(fixed, a)
    ensures k < |fixed| && a < fixed[k].addr + fixed[k].size <= b ==> EndingAbove(fixed, b) < EndingAbove(fixed, a)
  {
    if fixed != [] { FewerAbove(fixed[1..], a, b, if k > 0 then k - 1 else |fixed|); }
  }

  /** Nothing at or above `a` that starts below the end of an overlapped pin is clear of it. */
  lemma BumpForced(a: nat, w: nat, p: Pin, b: nat)
    requires Overlaps(a, w, p) && a <= b < p.addr + p.size
    ensures Overlaps(b, w, p)
  {
  }

  /** `r` is the least aligned address at or above `a` clear of every pin. */
  ghost predicate LeastClear(fixed: seq<Pin>, a: nat, w: nat, r: nat)
    requires w > 0
  {
    && a <= r && Aligned(r, w) && ClearOf(fixed, r, w)
    && forall b: nat :: a <= b < r && Aligned(b, w) ==> !ClearOf(fixed, b, w)
  }

  // ---- The bin-pack ------------------------------------------------------------------

  /** The bump loop of one bank. */
  method BumpPast(fixed: seq<Pin>, from: nat, w: nat) returns (base: nat)
    requires w > 0
    ensures LeastClear(fixed, from, w, base)
  {
    base := AlignTo(from, w);
    var bumped := true;
    while bumped
      invariant from <= base && Aligned(base, w)
      invariant forall b: nat :: from <= b < base && Aligned(b, w) ==> !ClearOf(fixed, b, w)
      invariant !bumped ==> ClearOf(fixed, base, w)
      decreases EndingAbove(fixed, base), bumped
    {
      bumped := false;
      var hit := FirstHit(fixed, base, w);
      if hit.Some? {
        var p := fixed[hit.value];
        ghost var was := base;
        base := AlignTo(p.addr + p.size, w);
        bumped := true;
        FewerAbove(fixed, was, base, hit.value);
        forall b: nat | was <= b < base && Aligned(b, w) ensures !ClearOf(fixed, b, w) {
          BumpForced(was, w, p, b);
        }
      }
    }
  }

  /** Where `w` bytes go: the first bank with room at or above its cursor, at the least address. */
  ghost predicate FirstRoom(d: Device, fixed: seq<Pin>, cursors: seq<nat>, w: nat, r: Option<(nat, nat)>)
    requires |cursors| == |d.banks| && w > 0
  {
    match r
    case Some((k, a)) =>
      && k < |d.banks| && Feasible(d, fixed, k, a, w) && cursors[k] <= a
      && (forall b: nat :: cursors[k] <= b < a ==> !Feasible(d, fixed, k, b, w))
      && (forall j: nat, b: nat :: j < k && cursors[j] <= b ==> !Feasible(d, fixed, j, b, w))
    case None =>
      forall j: nat, b: nat :: j < |d.banks| && cursors[j] <= b ==> !Feasible(d, fixed, j, b, w)
  }

  method FindRoom(d: Device, fixed: seq<Pin>, cursors: seq<nat>, w: nat) returns (r: Option<(nat, nat)>)
    requires |cursors| == |d.banks| && w > 0
    requires forall k :: 0 <= k < |cursors| ==> d.banks[k].lo <= cursors[k]
    ensures FirstRoom(d, fixed, cursors, w, r)
  {
    for k := 0 to |d.banks|
      invariant forall j: nat, b: nat :: j < k && cursors[j] <= b ==> !Feasible(d, fixed, j, b, w)
    {
      var base := BumpPast(fixed, cursors[k], w);
      if base + w - 1 <= d.banks[k].hi {
        return Some((k, base));
      }
      forall b: nat | cursors[k] <= b ensures !Feasible(d, fixed, k, b, w) {
        assert b < base ==> Aligned(b, w) ==> !ClearOf(fixed, b, w);
      }
    }
    r := None;
  }

  /** Every object in one bank, not below `start`, aligned, clear of pins and of each other. */
  ghost predicate Laid(d: Device, fixed: seq<Pin>, start: nat, spots: seq<Spot>) {
    && (forall i :: 0 <= i < |spots| ==> SpotOk(d, fixed, start, spots[i]))
    && (forall i, j :: 0 <= i < j < |spots| ==> Apart(spots[i], spots[j]))
  }

  ghost predicate SpotOk(d: Device, fixed: seq<Pin>, start: nat, s: Spot) {
    s.size > 0 && start <= s.addr && exists k: nat :: k < |d.banks| && Feasible(d, fixed, k, s.addr, s.size)
  }

  predicate Apart(a: Spot, b: Spot) {
    a.addr + a.size <= b.addr || b.addr + b.size <= a.addr
  }

  /** Stable, largest first. */
  function Insert(g: Global, gs: seq<Global>): seq<Global> {
    if gs == [] then [g]
    else if g.size >= gs[0].size then [g] + gs
    else [gs[0]] + Insert(g, gs[1..])
  }

  function LargestFirst(gs: seq<Global>): seq<Global> {
    if gs == [] then [] else Insert(gs[0], LargestFirst(gs[1..]))
  }

  ghost predicate Falling(gs: seq<Global>) {
    forall i, j :: 0 <= i < j < |gs| ==> gs[j].size <= gs[i].size
  }

  lemma {:induction false} InsertKeeps(g: Global, gs: seq<Global>)
    ensures multiset(Insert(g, gs)) == multiset{g} + multiset(gs)
  {
    if gs != [] && g.size < gs[0].size {
      InsertKeeps(g, gs[1..]);
      assert gs == [gs[0]] + gs[1..];
    }
  }

  lemma {:induction false} InsertFalls(g: Global, gs: seq<Global>)
    requires Falling(gs)
    ensures Falling(Insert(g, gs))
  {
    if gs != [] && g.size < gs[0].size {
      var t := Insert(g, gs[1..]);
      InsertFalls(g, gs[1..]);
      InsertKeeps(g, gs[1..]);
      forall j | 0 <= j < |t| ensures t[j].size <= gs[0].size {
        assert t[j] in multiset(t);
        assert t[j] == g || t[j] in gs[1..];
      }
    } else if gs != [] {
      assert forall j :: 0 <= j < |gs| ==> gs[j].size <= g.size;
    }
  }

  /** The packing order is the same globals, largest first. */
  lemma {:induction false} OrderIs(gs: seq<Global>)
    ensures Falling(LargestFirst(gs)) && multiset(LargestFirst(gs)) == multiset(gs)
  {
    if gs != [] {
      OrderIs(gs[1..]);
      InsertKeeps(gs[0], LargestFirst(gs[1..]));
      InsertFalls(gs[0], LargestFirst(gs[1..]));
      assert gs == [gs[0]] + gs[1..];
    }
  }

  // ---- Arrangements ------------------------------------------------------------------

  ghost predicate Names(gs: seq<Global>) {
    forall i, j :: 0 <= i < j < |gs| ==> gs[i].name != gs[j].name
  }

  /** Every global is placed in one bank at or above `start`, aligned, and apart from every pin
      and every other global. */
  ghost predicate Arranged(d: Device, fixed: seq<Pin>, start: nat, gs: seq<Global>, out: map<nat, nat>) {
    && (forall g <- gs :: g.name in out && SpotOk(d, fixed, start, Spot(out[g.name], g.size)))
    && (forall g, h :: g in gs && h in gs && g.name != h.name
          ==> Apart(Spot(out[g.name], g.size), Spot(out[h.name], h.size)))
  }

  /** The first globals of `order` are at `spots`. */
  ghost predicate Recorded(order: seq<Global>, spots: seq<Spot>, out: map<nat, nat>) {
    && |spots| <= |order|
    && forall i :: 0 <= i < |spots| ==> order[i].name in out && spots[i] == Spot(out[order[i].name], order[i].size)
  }

  lemma RecordedMore(order: seq<Global>, spots: seq<Spot>, out: map<nat, nat>, a: nat)
    requires Names(order) && Recorded(order, spots, out) && |spots| < |order|
    ensures var g := order[|spots|]; Recorded(order, spots + [Spot(a, g.size)], out[g.name := a])
  {
  }

  lemma LaidArranged(d: Device, fixed: seq<Pin>, start: nat, order: seq<Global>, gs: seq<Global>, spots: seq<Spot>,
                     out: map<nat, nat>)
    requires Laid(d, fixed, start, spots) && Recorded(order, spots, out) && |spots| == |order|
    requires multiset(order) == multiset(gs)
    ensures Arranged(d, fixed, start, gs, out)
  {
    hide SpotOk, Apart;
    forall g <- gs ensures g.name in out && SpotOk(d, fixed, start, Spot(out[g.name], g.size)) {
      var i := PlaceOf(order, gs, g);
    }
    forall g, h | g in gs && h in gs && g.name != h.name
      ensures Apart(Spot(out[g.name], g.size), Spot(out[h.name], h.size))
    {
      var i := PlaceOf(order, gs, g);
      var j := PlaceOf(order, gs, h);
      ApartSwaps(spots[i], spots[j]);
      assert if i < j then Apart(spots[i], spots[j]) else Apart(spots[j], spots[i]);
    }
  }

  lemma ApartSwaps(a: Spot, b: Spot)
    ensures Apart(a, b) <==> Apart(b, a)
  {
  }

  lemma PlaceOf(order: seq<Global>, gs: seq<Global>, g: Global) returns (i: nat)
    requires multiset(order) == multiset(gs) && g in gs
    ensures i < |order| && order[i] == g
  {
    assert g in multiset(gs);
    assert g in order;
    var k :| 0 <= k < |order| && order[k] == g;
    i := k;
  }

  lemma NamesOf(order: seq<Global>, gs: seq<Global>)
    requires multiset(order) == multiset(gs) && Names(gs)
    ensures Names(order)
  {
    forall i, j | 0 <= i < j < |order| ensures order[i].name != order[j].name {
      if order[i].name == order[j].name {
        assert order[i] in multiset(order) && order[j] in multiset(order);
        var a :| 0 <= a < |gs| && gs[a] == order[i];
        var b :| 0 <= b < |gs| && gs[b] == order[j];
        assert a == b;
        Twice(order, i, j);
        Once(gs, a);
      }
    }
  }

  lemma Twice(s: seq<Global>, i: nat, j: nat)
    requires i < j < |s| && s[i] == s[j]
    ensures multiset(s)[s[i]] >= 2
  {
    assert s == s[..j] + [s[j]] + s[j + 1..];
    assert s[i] in s[..j];
    assert multiset(s[..j])[s[i]] >= 1;
  }

  lemma Once(gs: seq<Global>, a: nat)
    requires a < |gs| && Names(gs)
    ensures multiset(gs)[gs[a]] == 1
  {
    assert gs == gs[..a] + [gs[a]] + gs[a + 1..];
    assert gs[a] !in gs[..a] && gs[a] !in gs[a + 1..];
  }

  // ---- The bin-pack, whole -----------------------------------------------------------

  /** What is placed in a bank ends at or below its cursor. */
  ghost predicate Behind(d: Device, spots: seq<Spot>, cursors: seq<nat>)
    requires |cursors| == |d.banks|
  {
    forall i, k :: 0 <= i < |spots| && 0 <= k < |d.banks| && InBank(d, k, spots[i].addr, spots[i].size)
      ==> spots[i].addr + spots[i].size <= cursors[k]
  }

  /** The cursor of bank `k` skips no place above `start` and above what the bank holds. */
  ghost predicate Tight(d: Device, fixed: seq<Pin>, start: nat, spots: seq<Spot>, cursors: seq<nat>, k: nat)
    requires |cursors| == |d.banks| && k < |d.banks|
  {
    forall b: nat, w: nat :: w > 0 && start <= b && Feasible(d, fixed, k, b, w) && AboveAll(d, k, spots, b) ==>
      cursors[k] <= b
  }

  ghost predicate AboveAll(d: Device, k: nat, spots: seq<Spot>, b: nat)
    requires k < |d.banks|
  {
    forall i :: 0 <= i < |spots| && InBank(d, k, spots[i].addr, spots[i].size) ==> spots[i].addr + spots[i].size <= b
  }

  /** No bank has room for `w` bytes above what it holds. */
  ghost predicate NoRoom(d: Device, fixed: seq<Pin>, start: nat, spots: seq<Spot>, w: nat)
    requires w > 0
  {
    forall k: nat, b: nat :: k < |d.banks| && start <= b && Feasible(d, fixed, k, b, w) ==> !AboveAll(d, k, spots, b)
  }

  /** Each bank's cursor: its start or `start`, bumped once past each pin that holds it. */
  method StartCursors(d: Device, fixed: seq<Pin>, start: nat) returns (cursors: seq<nat>)
    ensures |cursors| == |d.banks|
    ensures forall k :: 0 <= k < |d.banks| ==> d.banks[k].lo <= cursors[k] && start <= cursors[k]
    ensures AllTight(d, fixed, start, [], cursors)
  {
    cursors := [];
    for k := 0 to |d.banks|
      invariant |cursors| == k
      invariant forall j :: 0 <= j < k ==> d.banks[j].lo <= cursors[j] && start <= cursors[j]
      invariant forall j: nat, b: nat, w: nat :: j < k && w > 0 && start <= b && Feasible(d, fixed, j, b, w) ==>
        cursors[j] <= b
    {
      var c := Max(d.banks[k].lo, start);
      for f := 0 to |fixed|
        invariant d.banks[k].lo <= c && start <= c
        invariant forall b: nat, w: nat :: w > 0 && start <= b && Feasible(d, fixed, k, b, w) ==> c <= b
      {
        if fixed[f].addr <= c < fixed[f].addr + fixed[f].size {
          forall b: nat, w: nat | w > 0 && start <= b && Feasible(d, fixed, k, b, w)
            ensures fixed[f].addr + fixed[f].size <= b
          {
            assert !Overlaps(b, w, fixed[f]);
          }
          c := fixed[f].addr + fixed[f].size;
        }
      }
      cursors := cursors + [c];
    }
  }

  lemma BanksApart(d: Device, j: nat, k: nat, a: Spot, b: Spot)
    requires d.Valid() && j < |d.banks| && k < |d.banks| && j != k
    requires InBank(d, j, a.addr, a.size) && InBank(d, k, b.addr, b.size)
    ensures Apart(a, b)
  {
  }

  /** A spot added at or above its bank's cursor. */
  lemma LaidMore(d: Device, fixed: seq<Pin>, start: nat, spots: seq<Spot>, cursors: seq<nat>, k: nat, s: Spot)
    requires d.Valid() && |cursors| == |d.banks| && k < |d.banks| && s.size > 0
    requires Laid(d, fixed, start, spots) && Behind(d, spots, cursors)
    requires Feasible(d, fixed, k, s.addr, s.size) && cursors[k] <= s.addr && start <= s.addr
    ensures Laid(d, fixed, start, spots + [s]) && Behind(d, spots + [s], cursors[k := s.addr + s.size])
  {
    hide Apart, ClearOf, Aligned;
    var more := spots + [s];
    assert SpotOk(d, fixed, start, s);
    forall i | 0 <= i < |spots| ensures Apart(spots[i], s) {
      assert SpotOk(d, fixed, start, spots[i]);
      var j: nat :| j < |d.banks| && Feasible(d, fixed, j, spots[i].addr, spots[i].size);
      if j == k { ApartBelow(spots[i], s); } else { BanksApart(d, j, k, spots[i], s); }
    }
    forall i, c | 0 <= i < |more| && 0 <= c < |d.banks| && InBank(d, c, more[i].addr, more[i].size)
      ensures more[i].addr + more[i].size <= cursors[k := s.addr + s.size][c]
    {
      if i < |spots| {
        assert more[i].addr + more[i].size <= cursors[c];
      } else {
        OneBankOnly(d, k, c, s);
      }
    }
  }

  lemma OneBankOnly(d: Device, k: nat, c: nat, s: Spot)
    requires d.Valid() && k < |d.banks| && c < |d.banks| && s.size > 0
    requires InBank(d, k, s.addr, s.size) && InBank(d, c, s.addr, s.size)
    ensures k == c
  {
  }

  lemma ApartBelow(a: Spot, b: Spot)
    requires a.addr + a.size <= b.addr
    ensures Apart(a, b)
  {
  }

  ghost predicate AllTight(d: Device, fixed: seq<Pin>, start: nat, spots: seq<Spot>, cursors: seq<nat>) {
    |cursors| == |d.banks| && forall k: nat :: k < |d.banks| ==> Tight(d, fixed, start, spots, cursors, k)
  }

  lemma TightMore(d: Device, fixed: seq<Pin>, start: nat, spots: seq<Spot>, cursors: seq<nat>, k: nat, s: Spot,
                  cursors': seq<nat>)
    requires AllTight(d, fixed, start, spots, cursors) && k < |d.banks|
    requires InBank(d, k, s.addr, s.size) && cursors' == cursors[k := s.addr + s.size]
    ensures AllTight(d, fixed, start, spots + [s], cursors')
  {
    hide Feasible, InBank;
    var more := spots + [s];
    assert more[|spots|] == s && forall i :: 0 <= i < |spots| ==> more[i] == spots[i];
    forall c: nat | c < |d.banks| ensures Tight(d, fixed, start, more, cursors', c) {
      forall b: nat, w: nat | w > 0 && start <= b && Feasible(d, fixed, c, b, w) && AboveAll(d, c, more, b)
        ensures cursors'[c] <= b
      {
        assert AboveAll(d, c, spots, b);
        assert Tight(d, fixed, start, spots, cursors, c);
      }
    }
  }

  method BinPack(d: Device, fixed: seq<Pin>, floating: seq<Global>, start: nat)
      returns (r: Option<map<nat, nat>>, ghost spots: seq<Spot>)
    requires d.Valid() && Names(floating) && forall g <- floating :: g.size > 0
    ensures r.Some? ==> Arranged(d, fixed, start, floating, r.value)
    ensures r.None? ==> |spots| < |LargestFirst(floating)| && Laid(d, fixed, start, spots)
                        && LargestFirst(floating)[|spots|].size > 0
                        && NoRoom(d, fixed, start, spots, LargestFirst(floating)[|spots|].size)
  {
    hide Laid, Behind, Feasible, Tight, AllTight, Names, Arranged, NoRoom, LargestFirst, Falling;
    var cursors := StartCursors(d, fixed, start);
    OrderIs(floating);
    var order := LargestFirst(floating);
    NamesOf(order, floating);
    OrderSizes(order, floating);
    var out: map<nat, nat> := map[];
    spots := [];
    NoneLaid(d, fixed, start, cursors);
    for i := 0 to |order|
      invariant |spots| == i && |cursors| == |d.banks| && Recorded(order, spots, out)
      invariant forall k :: 0 <= k < |d.banks| ==> d.banks[k].lo <= cursors[k] && start <= cursors[k]
      invariant Laid(d, fixed, start, spots) && Behind(d, spots, cursors)
      invariant AllTight(d, fixed, start, spots, cursors)
    {
      var g := order[i];
      var room := FindRoom(d, fixed, cursors, g.size);
      if room.None? {
        NoRoomLeft(d, fixed, start, spots, cursors, g.size);
        return None, spots;
      }
      var (k, base) := room.value;
      ghost var s := Spot(base, g.size);
      Inside(d, fixed, k, base, g.size);
      LaidMore(d, fixed, start, spots, cursors, k, s);
      TightMore(d, fixed, start, spots, cursors, k, s, cursors[k := base + g.size]);
      RecordedMore(order, spots, out, base);
      out := out[g.name := base];
      cursors := cursors[k := base + g.size];
      spots := spots + [s];
    }
    LaidArranged(d, fixed, start, order, floating, spots, out);
    r := Some(out);
  }

  lemma OrderSizes(order: seq<Global>, gs: seq<Global>)
    requires multiset(order) == multiset(gs) && forall g <- gs :: g.size > 0
    ensures forall i :: 0 <= i < |order| ==> order[i].size > 0
  {
    forall i | 0 <= i < |order| ensures order[i].size > 0 { assert order[i] in multiset(order); }
  }

  lemma Inside(d: Device, fixed: seq<Pin>, k: nat, a: nat, w: nat)
    requires k < |d.banks| && w > 0 && Feasible(d, fixed, k, a, w)
    ensures InBank(d, k, a, w)
  {
  }

  lemma NoneLaid(d: Device, fixed: seq<Pin>, start: nat, cursors: seq<nat>)
    requires |cursors| == |d.banks|
    ensures Laid(d, fixed, start, []) && Behind(d, [], cursors)
  {
  }

  lemma NoRoomLeft(d: Device, fixed: seq<Pin>, start: nat, spots: seq<Spot>, cursors: seq<nat>, w: nat)
    requires |cursors| == |d.banks| && w > 0 && FirstRoom(d, fixed, cursors, w, None)
    requires AllTight(d, fixed, start, spots, cursors)
    ensures NoRoom(d, fixed, start, spots, w)
  {
    hide Feasible, AboveAll;
    forall k: nat, b: nat | k < |d.banks| && start <= b && Feasible(d, fixed, k, b, w)
      ensures !AboveAll(d, k, spots, b) {
      assert Tight(d, fixed, start, spots, cursors, k);
    }
  }

  // ---- The sequential pass -----------------------------------------------------------

  /** No object is wider than a region, so the straddling branch is never taken. */
  predicate FitsRegions(d: Device, w: nat) {
    forall k :: 0 <= k < |d.banks| ==> d.banks[k].lo + w <= d.banks[k].hi + 1
  }

  predicate InSomeBank(d: Device, a: nat, w: nat) {
    exists k :: 0 <= k < |d.banks| && InBank(d, k, a, w)
  }

  /** The least aligned address at or above `addr` with `w` bytes in one bank; `None` past the last. */
  method TryPlaceAt(d: Device, addr: nat, w: nat) returns (r: Option<nat>)
    requires d.Valid() && w > 0 && (d.core.Pic14e? ==> FitsRegions(d, w))
    ensures r.Some? ==> addr <= r.value && InSomeBank(d, r.value, w) && Aligned(r.value, w)
    ensures forall b: nat :: addr <= b && InSomeBank(d, b, w) && Aligned(b, w) ==> r.Some? && r.value <= b
  {
    var a := addr;
    ghost var i: nat := 0;
    while true
      invariant addr <= a && i <= |d.banks|
      invariant forall k :: 0 <= k < i ==> d.banks[k].hi < a
      invariant forall b: nat :: addr <= b < a && Aligned(b, w) ==> !InSomeBank(d, b, w)
      decreases |d.banks| - i
    {
      var at := d.RegionIndex(a);
      if at.None? {
        assert forall b: nat, k :: a <= b && 0 <= k < |d.banks| ==> !InBank(d, k, b, w);
        return None;
      }
      var k := at.value;
      var region := d.banks[k];
      var base := AlignTo(Max(a, region.lo), w);
      forall b: nat | a <= b < base && Aligned(b, w) ensures !InSomeBank(d, b, w) {
        BelowBase(d, a, w, k, b);
      }
      if base + w - 1 <= region.hi {
        assert InBank(d, k, base, w);
        return Some(base);
      }
      forall b: nat | a <= b <= region.hi && Aligned(b, w) ensures !InSomeBank(d, b, w) {
        NoneLeft(d, a, w, k, base, b);
      }
      a := region.hi + 1;
      i := k + 1;
    }
  }

  lemma BelowBase(d: Device, a: nat, w: nat, k: nat, b: nat)
    requires d.Valid() && w > 0 && k < |d.banks| && (forall j :: 0 <= j < k ==> d.banks[j].hi < a)
    requires a <= b < AlignTo(Max(a, d.banks[k].lo), w) && Aligned(b, w)
    ensures !InSomeBank(d, b, w)
  {
    forall j | 0 <= j < |d.banks| ensures !InBank(d, j, b, w) { }
  }

  lemma NoneLeft(d: Device, a: nat, w: nat, k: nat, base: nat, b: nat)
    requires d.Valid() && w > 0 && k < |d.banks| && (forall j :: 0 <= j < k ==> d.banks[j].hi < a)
    requires base == AlignTo(Max(a, d.banks[k].lo), w) && base + w - 1 > d.banks[k].hi
    requires a <= b <= d.banks[k].hi && Aligned(b, w)
    ensures !InSomeBank(d, b, w)
  {
    if b < base { BelowBase(d, a, w, k, b); }
    forall j | 0 <= j < |d.banks| ensures !InBank(d, j, b, w) { }
  }

  /** A place for `w` bytes: in one bank, aligned, clear of pins. */
  predicate Fit(d: Device, fixed: seq<Pin>, a: nat, w: nat)
    requires w > 0
  {
    InSomeBank(d, a, w) && Aligned(a, w) && ClearOf(fixed, a, w)
  }

  /** `r` is the least fit at or above `addr`, or `None` when there is none. */
  ghost predicate LeastFit(d: Device, fixed: seq<Pin>, addr: nat, w: nat, r: Option<nat>)
    requires w > 0
  {
    && (r.Some? ==> addr <= r.value && Fit(d, fixed, r.value, w))
    && forall b: nat :: addr <= b && Fit(d, fixed, b, w) ==> r.Some? && r.value <= b
  }

  /** One global of the sequential pass: past the pins, into a region, past the pins again. */
  method FloatOne(d: Device, fixed: seq<Pin>, addr: nat, w: nat) returns (r: Option<nat>)
    requires d.Valid() && w > 0 && (d.core.Pic14e? ==> FitsRegions(d, w))
    ensures LeastFit(d, fixed, addr, w, r)
  {
    hide InSomeBank, Aligned;
    var candidate := addr;
    while true
      invariant addr <= candidate && forall b: nat :: addr <= b < candidate ==> !ClearOf(fixed, b, w)
      decreases EndingAbove(fixed, candidate)
    {
      var hit := FirstHit(fixed, candidate, w);
      if hit.None? { break; }
      var p := fixed[hit.value];
      forall b: nat | candidate <= b < p.addr + p.size ensures !ClearOf(fixed, b, w) {
        BumpForced(candidate, w, p, b);
      }
      FewerAbove(fixed, candidate, p.addr + p.size, hit.value);
      candidate := p.addr + p.size;
    }
    r := TryPlaceAt(d, candidate, w);
    while r.Some?
      invariant r.Some? ==> addr <= r.value && InSomeBank(d, r.value, w) && Aligned(r.value, w)
      invariant forall b: nat :: addr <= b && Fit(d, fixed, b, w) ==> r.Some? && r.value <= b
      decreases r.Some?, if r.Some? then EndingAbove(fixed, r.value) else 0
    {
      var start := r.value;
      var hit := FirstHit(fixed, start, w);
      if hit.None? { break; }
      var p := fixed[hit.value];
      forall b: nat | start <= b < p.addr + p.size ensures !ClearOf(fixed, b, w) { BumpForced(start, w, p, b); }
      r := TryPlaceAt(d, p.addr + p.size, w);
      if r.Some? { FewerAbove(fixed, start, r.value, hit.value); }
    }
  }

  /** Everything placed so far ends at or below `addr`, and no fit above it all is skipped. */
  ghost predicate Swept(d: Device, fixed: seq<Pin>, start: nat, spots: seq<Spot>, addr: nat) {
    && start <= addr
    && (forall i :: 0 <= i < |spots| ==> spots[i].addr + spots[i].size <= addr)
    && forall b: nat, w: nat :: w > 0 && start <= b && Fit(d, fixed, b, w) && AboveSpots(spots, b) ==> addr <= b
  }

  ghost predicate AboveSpots(spots: seq<Spot>, b: nat) {
    forall i :: 0 <= i < |spots| ==> spots[i].addr + spots[i].size <= b
  }

  /** Step the cursor past each pin that holds it, or that it has just reached into. */
  method PastPins(d: Device, fixed: seq<Pin>, addr: nat, behind: bool) returns (r: nat)
    ensures addr <= r && forall b: nat, w: nat :: w > 0 && addr <= b && Fit(d, fixed, b, w) ==> r <= b
  {
    hide InSomeBank, Aligned;
    r := addr;
    for f := 0 to |fixed|
      invariant addr <= r && forall b: nat, w: nat :: w > 0 && addr <= b && Fit(d, fixed, b, w) ==> r <= b
    {
      var p := fixed[f];
      if (!behind && p.addr <= r < p.addr + p.size) || (behind && p.addr < r <= p.addr + p.size) {
        forall b: nat, w: nat | w > 0 && addr <= b && Fit(d, fixed, b, w) ensures p.addr + p.size <= b {
          assert !Overlaps(b, w, p);
        }
        r := p.addr + p.size;
      }
    }
  }

  /** The sequential pass from `start`, in the given order. */
  method TryFloat(d: Device, fixed: seq<Pin>, floating: seq<Global>, start: nat)
      returns (r: Option<map<nat, nat>>, ghost spots: seq<Spot>)
    requires d.Valid() && Names(floating) && forall g <- floating :: g.size > 0
    requires d.core.Pic14e? ==> forall g <- floating :: FitsRegions(d, g.size)
    ensures r.Some? ==> Arranged(d, fixed, start, floating, r.value)
    ensures r.None? ==> |spots| < |floating| && Laid(d, fixed, start, spots) && floating[|spots|].size > 0
                        && forall b: nat :: start <= b && Fit(d, fixed, b, floating[|spots|].size) ==>
                          !AboveSpots(spots, b)
  {
    hide Laid, Fit, Names, Arranged, FitsRegions;
    var out: map<nat, nat> := map[];
    spots := [];
    NoneLaid(d, fixed, start, seq(|d.banks|, _ => 0));
    var addr := PastPins(d, fixed, start, false);
    for i := 0 to |floating|
      invariant |spots| == i && Recorded(floating, spots, out)
      invariant Laid(d, fixed, start, spots) && Swept(d, fixed, start, spots, addr)
    {
      var g := floating[i];
      var at := FloatOne(d, fixed, addr, g.size);
      if at.None? {
        return None, spots;
      }
      var a := at.value;
      ghost var s := Spot(a, g.size);
      FloatMore(d, fixed, start, spots, addr, s);
      RecordedMore(floating, spots, out, a);
      out := out[g.name := a];
      spots := spots + [s];
      ghost var last := a + g.size;
      addr := PastPins(d, fixed, a + g.size, true);
      SweptMore(d, fixed, start, spots, last, addr);
    }
    LaidArranged(d, fixed, start, floating, floating, spots, out);
    r := Some(out);
  }

  lemma FloatMore(d: Device, fixed: seq<Pin>, start: nat, spots: seq<Spot>, addr: nat, s: Spot)
    requires Laid(d, fixed, start, spots) && Swept(d, fixed, start, spots, addr)
    requires s.size > 0 && addr <= s.addr && Fit(d, fixed, s.addr, s.size)
    ensures Laid(d, fixed, start, spots + [s]) && Swept(d, fixed, start, spots + [s], s.addr + s.size)
  {
    hide ClearOf;
    var k :| 0 <= k < |d.banks| && InBank(d, k, s.addr, s.size);
    assert Feasible(d, fixed, k, s.addr, s.size);
    assert SpotOk(d, fixed, start, s);
    hide InSomeBank, SpotOk, Fit;
    var more := spots + [s];
    assert more[|spots|] == s;
    forall i | 0 <= i < |spots| ensures Apart(spots[i], s) { ApartBelow(spots[i], s); }
  }

  lemma SweptMore(d: Device, fixed: seq<Pin>, start: nat, spots: seq<Spot>, addr: nat, addr': nat)
    requires Swept(d, fixed, start, spots, addr) && addr <= addr'
    requires forall b: nat, w: nat :: w > 0 && addr <= b && Fit(d, fixed, b, w) ==> addr' <= b
    ensures Swept(d, fixed, start, spots, addr')
  {
    hide Fit;
  }
}
