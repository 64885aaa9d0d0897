/** Greedy slot colouring of live ranges, with coalescing pins, and the frame layout built
    from it. */
module Coloring {
  import opened Wrappers
  import opened Points
  import opened Ir
  import opened Liveness
  import opened LiveRanges

  /** What the colouring knows of a value: its range, width and placement order. */
  datatype Value = Value(range: Range, width: nat, order: nat)

  /** A slot: the hull of its occupants' ranges and the widest width. */
  datatype Slot = Slot(range: Range, width: nat)

  type Pins = map<Name, Name>
  type Arms = map<Name, seq<Name>>

  /** `v` may share `u`'s slot because it was pinned to it. */
  ghost predicate PinnedTo(pins: Pins, arms: Arms, v: Name, u: Name) {
    (v in pins && pins[v] == u) || (v in arms && u in arms[v])
  }

  ghost predicate Fits(info: map<Name, Value>, slots: seq<Slot>, slotOf: map<Name, nat>, v: Name)
    requires v in slotOf && v in info
  {
    && slotOf[v] < |slots|
    && Le(slots[slotOf[v]].range.lo, info[v].range.lo)
    && Le(info[v].range.hi, slots[slotOf[v]].range.hi)
    && info[v].width <= slots[slotOf[v]].width
  }

  ghost predicate Compatible(info: map<Name, Value>, pins: Pins, arms: Arms, u: Name, v: Name)
    requires u in info && v in info
  {
    || Disjoint(info[u].range, info[v].range)
    || PinnedTo(pins, arms, u, v) || PinnedTo(pins, arms, v, u)
  }

  /** The width of a slot is that of one of its occupants. */
  ghost predicate Tight(info: map<Name, Value>, slots: seq<Slot>, slotOf: map<Name, nat>, s: nat)
    requires s < |slots|
  {
    exists v :: v in slotOf && v in info && slotOf[v] == s && info[v].width == slots[s].width
  }

  /** The colouring invariant. */
  ghost predicate Coloured(info: map<Name, Value>, pins: Pins, arms: Arms, slots: seq<Slot>,
                           slotOf: map<Name, nat>)
  {
    && slotOf.Keys <= info.Keys
    && (forall v :: v in slotOf ==> Fits(info, slots, slotOf, v))
    && (forall u, v :: u in slotOf && v in slotOf && u != v && slotOf[u] == slotOf[v] ==>
          Compatible(info, pins, arms, u, v))
    && (forall s :: 0 <= s < |slots| ==> Tight(info, slots, slotOf, s))
  }

  // ---- The slot each value must get --------------------------------------------------

  /** The ranges of the values in slot `s`, and the gaps between them, reach into `r`. */
  ghost predicate HullMeets(info: map<Name, Value>, m: map<Name, nat>, s: nat, r: Range) {
    && (exists a :: a in m && a in info && m[a] == s && Le(info[a].range.lo, r.hi))
    && (exists b :: b in m && b in info && m[b] == s && Le(r.lo, info[b].range.hi))
  }

  /** `src` has a slot, whose other values all keep clear of `v`. */
  ghost predicate Usable(info: map<Name, Value>, m: map<Name, nat>, v: Name, src: Name) {
    && src in m && v in info
    && forall o :: o in m && o != src && m[o] == m[src] ==> o in info && Disjoint(info[v].range, info[o].range)
  }

  ghost predicate FirstUsable(info: map<Name, Value>, m: map<Name, nat>, v: Name, list: seq<Name>, s: nat) {
    exists k :: 0 <= k < |list| && Usable(info, m, v, list[k]) && s == m[list[k]]
      && forall j :: 0 <= j < k ==> !Usable(info, m, v, list[j])
  }

  /** With the slots `m`, slot `s` is the one for `v`: that of the first usable source, or else the
      lowest one clear of `v`. */
  ghost predicate Takes(info: map<Name, Value>, m: map<Name, nat>, v: Name, list: seq<Name>, s: nat)
    requires v in info
  {
    if exists k :: 0 <= k < |list| && Usable(info, m, v, list[k]) then FirstUsable(info, m, v, list, s)
    else
      !HullMeets(info, m, s, info[v].range) && forall k: nat :: k < s ==> HullMeets(info, m, k, info[v].range)
  }

  function ArmsOf(arms: Arms, v: Name): seq<Name> {
    if v in arms then arms[v] else []
  }

  function Sources(pins: Pins, arms: Arms, v: Name): seq<Name> {
    (if v in pins then [pins[v]] else []) + ArmsOf(arms, v)
  }

  /** No source of `v` is usable yet, and one of its arms has no slot yet. */
  ghost predicate Waits(info: map<Name, Value>, pins: Pins, arms: Arms, m: map<Name, nat>, v: Name) {
    && (forall k :: 0 <= k < |Sources(pins, arms, v)| ==> !Usable(info, m, v, Sources(pins, arms, v)[k]))
    && exists k :: 0 <= k < |ArmsOf(arms, v)| && ArmsOf(arms, v)[k] !in m
  }

  /** The slots `m` and the waiting values `d` behind the first sweep over `vals`. */
  ghost predicate FirstSweep(info: map<Name, Value>, pins: Pins, arms: Arms, vals: seq<Name>,
                             m: map<Name, nat>, d: seq<Name>)
    requires forall v <- vals :: v in info
    decreases |vals|
  {
    if vals == [] then m == map[] && d == []
    else
      var v, rest := vals[|vals| - 1], vals[..|vals| - 1];
      exists m0, d0 :: FirstSweep(info, pins, arms, rest, m0, d0) && FirstTurn(info, pins, arms, m0, d0, v, m, d)
  }

  ghost predicate FirstTurn(info: map<Name, Value>, pins: Pins, arms: Arms, m0: map<Name, nat>, d0: seq<Name>,
                            v: Name, m: map<Name, nat>, d: seq<Name>)
    requires v in info
  {
    if Waits(info, pins, arms, m0, v) then m == m0 && d == d0 + [v]
    else d == d0 && v in m && m == m0[v := m[v]] && Takes(info, m0, v, Sources(pins, arms, v), m[v])
  }

  /** The slots behind the second sweep, over the values that waited. */
  ghost predicate SecondSweep(info: map<Name, Value>, arms: Arms, m1: map<Name, nat>, d: seq<Name>, m: map<Name, nat>)
    requires forall v <- d :: v in info
    decreases |d|
  {
    if d == [] then m == m1
    else
      var v, rest := d[|d| - 1], d[..|d| - 1];
      exists m0 :: SecondSweep(info, arms, m1, rest, m0) && SecondTurn(info, arms, m0, v, m)
  }

  ghost predicate SecondTurn(info: map<Name, Value>, arms: Arms, m0: map<Name, nat>, v: Name, m: map<Name, nat>)
    requires v in info
  {
    v in m && m == m0[v := m[v]] && Takes(info, m0, v, ArmsOf(arms, v), m[v])
  }

  /** Every value has the slot the rule gives it in its turn. */
  ghost predicate Greedy(info: map<Name, Value>, pins: Pins, arms: Arms, vals: seq<Name>, m: map<Name, nat>)
    requires forall v <- vals :: v in info
  {
    exists m1, d :: (forall v <- d :: v in info) && FirstSweep(info, pins, arms, vals, m1, d)
      && SecondSweep(info, arms, m1, d, m)
  }

  lemma TakesOne(info: map<Name, Value>, m: map<Name, nat>, v: Name, list: seq<Name>, s: nat, t: nat)
    requires v in info && Takes(info, m, v, list, s) && Takes(info, m, v, list, t)
    ensures s == t
  {
    hide Usable, HullMeets;
  }

  lemma {:induction false} FirstOne(info: map<Name, Value>, pins: Pins, arms: Arms, vals: seq<Name>,
                                    m: map<Name, nat>, d: seq<Name>, m': map<Name, nat>, d': seq<Name>)
    requires forall v <- vals :: v in info
    requires FirstSweep(info, pins, arms, vals, m, d) && FirstSweep(info, pins, arms, vals, m', d')
    ensures m == m' && d == d'
    decreases |vals|
  {
    hide Takes, Waits;
    if vals != [] {
      var v, rest := vals[|vals| - 1], vals[..|vals| - 1];
      var a, b :| FirstSweep(info, pins, arms, rest, a, b) && FirstTurn(info, pins, arms, a, b, v, m, d);
      var a', b' :| FirstSweep(info, pins, arms, rest, a', b') && FirstTurn(info, pins, arms, a', b', v, m', d');
      FirstOne(info, pins, arms, rest, a, b, a', b');
      if !Waits(info, pins, arms, a, v) { TakesOne(info, a, v, Sources(pins, arms, v), m[v], m'[v]); }
    }
  }

  lemma {:induction false} SecondOne(info: map<Name, Value>, arms: Arms, m1: map<Name, nat>, d: seq<Name>,
                                     m: map<Name, nat>, m': map<Name, nat>)
    requires forall v <- d :: v in info
    requires SecondSweep(info, arms, m1, d, m) && SecondSweep(info, arms, m1, d, m')
    ensures m == m'
    decreases |d|
  {
    hide Takes;
    if d != [] {
      var v, rest := d[|d| - 1], d[..|d| - 1];
      var a :| SecondSweep(info, arms, m1, rest, a) && SecondTurn(info, arms, a, v, m);
      var b :| SecondSweep(info, arms, m1, rest, b) && SecondTurn(info, arms, b, v, m');
      SecondOne(info, arms, m1, rest, a, b);
      TakesOne(info, a, v, ArmsOf(arms, v), m[v], m'[v]);
    }
  }

  /** The rule gives one colouring. */
  lemma GreedyOne(info: map<Name, Value>, pins: Pins, arms: Arms, vals: seq<Name>, m: map<Name, nat>,
                  m': map<Name, nat>)
    requires forall v <- vals :: v in info
    requires Greedy(info, pins, arms, vals, m) && Greedy(info, pins, arms, vals, m')
    ensures m == m'
  {
    hide FirstSweep, SecondSweep;
    var a, d :| (forall v <- d :: v in info) && FirstSweep(info, pins, arms, vals, a, d)
      && SecondSweep(info, arms, a, d, m);
    var a', d' :| (forall v <- d' :: v in info) && FirstSweep(info, pins, arms, vals, a', d')
      && SecondSweep(info, arms, a', d', m');
    FirstOne(info, pins, arms, vals, a, d, a', d');
    SecondOne(info, arms, a, d, m, m');
  }

  /** The hull of a slot is reached by its occupants. */
  ghost predicate Reached(info: map<Name, Value>, slots: seq<Slot>, m: map<Name, nat>, s: nat)
    requires s < |slots|
  {
    && (exists a :: a in m && a in info && m[a] == s && info[a].range.lo == slots[s].range.lo)
    && (exists b :: b in m && b in info && m[b] == s && info[b].range.hi == slots[s].range.hi)
  }

  ghost predicate Hulls(info: map<Name, Value>, slots: seq<Slot>, m: map<Name, nat>) {
    forall s :: 0 <= s < |slots| ==> Reached(info, slots, m, s)
  }

  lemma MeetsIs(info: map<Name, Value>, pins: Pins, arms: Arms, slots: seq<Slot>, m: map<Name, nat>, s: nat, r: Range)
    requires Coloured(info, pins, arms, slots, m) && Hulls(info, slots, m)
    ensures HullMeets(info, m, s, r) <==> s < |slots| && !Disjoint(r, slots[s].range)
  {
    hide Compatible, Tight;
    if s < |slots| {
      assert Reached(info, slots, m, s);
      forall a | a in m && m[a] == s
        ensures Le(slots[s].range.lo, info[a].range.lo) && Le(info[a].range.hi, slots[s].range.hi)
      {
        assert Fits(info, slots, m, a);
      }
    } else {
      forall a | a in m ensures m[a] != s { assert Fits(info, slots, m, a); }
    }
  }

  lemma GrowHulls(info: map<Name, Value>, slots: seq<Slot>, m: map<Name, nat>, v: Name, i: nat)
    requires Hulls(info, slots, m) && v in info && v !in m && i < |slots|
    ensures Hulls(info, Joined(slots, i, info[v]), m[v := i])
  {
    var slots', m' := Joined(slots, i, info[v]), m[v := i];
    forall s | 0 <= s < |slots| ensures Reached(info, slots', m', s) {
      assert Reached(info, slots, m, s);
      var a :| a in m && a in info && m[a] == s && info[a].range.lo == slots[s].range.lo;
      var b :| b in m && b in info && m[b] == s && info[b].range.hi == slots[s].range.hi;
      assert m'[a] == s && m'[b] == s && m'[v] == i;
    }
  }

  lemma FreshHulls(info: map<Name, Value>, slots: seq<Slot>, m: map<Name, nat>, v: Name)
    requires Hulls(info, slots, m) && v in info && v !in m
    ensures Hulls(info, slots + [Slot(info[v].range, info[v].width)], m[v := |slots|])
  {
    var slots', m' := slots + [Slot(info[v].range, info[v].width)], m[v := |slots|];
    forall s | 0 <= s < |slots'| ensures Reached(info, slots', m', s) {
      if s < |slots| {
        assert Reached(info, slots, m, s);
        var a :| a in m && a in info && m[a] == s && info[a].range.lo == slots[s].range.lo;
        var b :| b in m && b in info && m[b] == s && info[b].range.hi == slots[s].range.hi;
        assert m'[a] == s && m'[b] == s;
      } else {
        assert m'[v] == s;
      }
    }
  }

  /** Lowest slot whose hull is disjoint from `r`, a fresh one when there is none. */
  method FirstFit(slots: seq<Slot>, r: Range, w: nat) returns (out: seq<Slot>, i: nat)
    ensures i <= |slots| && forall k :: 0 <= k < i ==> !Disjoint(r, slots[k].range)
    ensures i < |slots| ==>
      Disjoint(r, slots[i].range) && out == slots[i := Slot(Hull(slots[i].range, r), Max(slots[i].width, w))]
    ensures i == |slots| ==> out == slots + [Slot(r, w)]
  {
    for k := 0 to |slots|
      invariant forall j :: 0 <= j < k ==> !Disjoint(r, slots[j].range)
    {
      if Disjoint(r, slots[k].range) {
        return slots[k := Slot(Hull(slots[k].range, r), Max(slots[k].width, w))], k;
      }
    }
    return slots + [Slot(r, w)], |slots|;
  }

  /** Some occupant of slot `si` other than the pin's source overlaps `r`. */
  predicate PinClash(info: map<Name, Value>, slotOf: map<Name, nat>, si: nat, src: Name, r: Range) {
    exists o :: o in slotOf && slotOf[o] == si && o != src && (o in info ==> !Disjoint(r, info[o].range))
  }

  /** Put `v` into slot `si`, which the pin's source already holds. */
  function Joined(slots: seq<Slot>, si: nat, val: Value): (out: seq<Slot>)
    requires si < |slots|
  {
    slots[si := Slot(Hull(slots[si].range, val.range), Max(slots[si].width, val.width))]
  }

  lemma JoinKeeps(info: map<Name, Value>, pins: Pins, arms: Arms, slots: seq<Slot>,
                  slotOf: map<Name, nat>, v: Name, src: Name)
    requires Coloured(info, pins, arms, slots, slotOf) && v in info && v !in slotOf && src in slotOf
    requires PinnedTo(pins, arms, v, src) && !PinClash(info, slotOf, slotOf[src], src, info[v].range)
    ensures Fits(info, slots, slotOf, src)
    ensures Coloured(info, pins, arms, Joined(slots, slotOf[src], info[v]), slotOf[v := slotOf[src]])
  {
    assert Fits(info, slots, slotOf, src);
    var slots', slotOf' := Joined(slots, slotOf[src], info[v]), slotOf[v := slotOf[src]];
    GrowKeeps(info, pins, arms, slots, slotOf, v, slotOf[src], slots', slotOf');
    forall u | u in slotOf && slotOf[u] == slotOf[src] ensures Compatible(info, pins, arms, u, v) {
      assert u == src || Disjoint(info[v].range, info[u].range);
    }
  }

  /** Widening slot `i` for a new occupant keeps everything but the sharing condition. */
  lemma GrowKeeps(info: map<Name, Value>, pins: Pins, arms: Arms, slots: seq<Slot>,
                  slotOf: map<Name, nat>, v: Name, i: nat, slots': seq<Slot>, slotOf': map<Name, nat>)
    requires Coloured(info, pins, arms, slots, slotOf) && v in info && v !in slotOf && i < |slots|
    requires slots' == Joined(slots, i, info[v]) && slotOf' == slotOf[v := i]
    ensures forall u :: u in slotOf' ==> Fits(info, slots', slotOf', u)
    ensures forall s :: 0 <= s < |slots| ==> Tight(info, slots', slotOf', s)
  {
    forall u | u in slotOf' ensures Fits(info, slots', slotOf', u) {
      if u != v { assert Fits(info, slots, slotOf, u); }
    }
    forall s | 0 <= s < |slots| ensures Tight(info, slots', slotOf', s) {
      assert Tight(info, slots, slotOf, s);
      var u :| u in slotOf && u in info && slotOf[u] == s && info[u].width == slots[s].width;
      if s == i && slots'[s].width == info[v].width {
        assert slotOf'[v] == s;
      } else {
        assert slotOf'[u] == s;
      }
    }
  }

  lemma FitKeeps(info: map<Name, Value>, pins: Pins, arms: Arms, slots: seq<Slot>,
                 slotOf: map<Name, nat>, v: Name, out: seq<Slot>, i: nat)
    requires Coloured(info, pins, arms, slots, slotOf) && v in info && v !in slotOf
    requires i <= |slots|
    requires i < |slots| ==> Disjoint(info[v].range, slots[i].range) && out == Joined(slots, i, info[v])
    requires i == |slots| ==> out == slots + [Slot(info[v].range, info[v].width)]
    ensures Coloured(info, pins, arms, out, slotOf[v := i])
  {
    var slotOf' := slotOf[v := i];
    if i < |slots| {
      GrowKeeps(info, pins, arms, slots, slotOf, v, i, out, slotOf');
      forall u | u in slotOf && slotOf[u] == i ensures Compatible(info, pins, arms, u, v) {
        assert Fits(info, slots, slotOf, u);
      }
    } else {
      forall u | u in slotOf' ensures Fits(info, out, slotOf', u) {
        if u != v { assert Fits(info, slots, slotOf, u); }
      }
      forall s | 0 <= s < |out| ensures Tight(info, out, slotOf', s) {
        if s < |slots| {
          assert Tight(info, slots, slotOf, s);
          var u :| u in slotOf && u in info && slotOf[u] == s && info[u].width == slots[s].width;
          assert slotOf'[u] == s;
        } else {
          assert slotOf'[v] == s;
        }
      }
      forall u | u in slotOf ensures slotOf[u] != i { assert Fits(info, slots, slotOf, u); }
    }
  }

  method Place(info: map<Name, Value>, ghost pins: Pins, ghost arms: Arms, slots0: seq<Slot>,
               slotOf0: map<Name, nat>, v: Name)
    returns (slots: seq<Slot>, slotOf: map<Name, nat>)
    requires Coloured(info, pins, arms, slots0, slotOf0) && Hulls(info, slots0, slotOf0) && v in info && v !in slotOf0
    ensures Coloured(info, pins, arms, slots, slotOf) && Hulls(info, slots, slotOf)
    ensures v in slotOf && slotOf == slotOf0[v := slotOf[v]]
    ensures !HullMeets(info, slotOf0, slotOf[v], info[v].range)
    ensures forall k: nat :: k < slotOf[v] ==> HullMeets(info, slotOf0, k, info[v].range)
  {
    hide HullMeets, Coloured, Hulls;
    var i;
    slots, i := FirstFit(slots0, info[v].range, info[v].width);
    slotOf := slotOf0[v := i];
    FitKeeps(info, pins, arms, slots0, slotOf0, v, slots, i);
    if i < |slots0| {
      GrowHulls(info, slots0, slotOf0, v, i);
    } else {
      FreshHulls(info, slots0, slotOf0, v);
    }
    forall k: nat ensures HullMeets(info, slotOf0, k, info[v].range) <==> k < |slots0| && !Disjoint(info[v].range,
        slots0[k].range) {
      MeetsIs(info, pins, arms, slots0, slotOf0, k, info[v].range);
    }
  }

  lemma ClashIs(info: map<Name, Value>, m: map<Name, nat>, v: Name, src: Name)
    requires v in info && src in m
    ensures PinClash(info, m, m[src], src, info[v].range) <==> !Usable(info, m, v, src)
  {
  }

  /** Try the pin sources in order; the first one coloured without a clash takes `v`.
      `waited` tells that some source had no slot yet. */
  method TryPins(info: map<Name, Value>, ghost pins: Pins, ghost arms: Arms, list: seq<Name>,
                 slots0: seq<Slot>, slotOf0: map<Name, nat>, v: Name)
    returns (slots: seq<Slot>, slotOf: map<Name, nat>, stuck: bool, waited: bool)
    requires Coloured(info, pins, arms, slots0, slotOf0) && Hulls(info, slots0, slotOf0) && v in info && v !in slotOf0
    requires forall k :: 0 <= k < |list| ==> PinnedTo(pins, arms, v, list[k])
    ensures Coloured(info, pins, arms, slots, slotOf) && Hulls(info, slots, slotOf)
    ensures stuck ==> v in slotOf && slotOf == slotOf0[v := slotOf[v]] && FirstUsable(info, slotOf0, v, list, slotOf[v])
    ensures !stuck ==> slots == slots0 && slotOf == slotOf0
    ensures !stuck ==> forall k :: 0 <= k < |list| ==> !Usable(info, slotOf0, v, list[k])
    ensures !stuck ==> (waited <==> exists k :: 0 <= k < |list| && list[k] !in slotOf0)
  {
    hide Coloured, Hulls, Usable;
    slots, slotOf, stuck, waited := slots0, slotOf0, false, false;
    for k := 0 to |list|
      invariant !stuck && slots == slots0 && slotOf == slotOf0
      invariant waited <==> exists j :: 0 <= j < k && list[j] !in slotOf0
      invariant forall j :: 0 <= j < k ==> !Usable(info, slotOf0, v, list[j])
    {
      var s := list[k];
      if s in slotOf {
        ClashIs(info, slotOf, v, s);
        if !PinClash(info, slotOf, slotOf[s], s, info[v].range) {
          JoinKeeps(info, pins, arms, slots, slotOf, v, s);
          GrowHulls(info, slots, slotOf, v, slotOf[s]);
          slots := Joined(slots, slotOf[s], info[v]);
          slotOf := slotOf[v := slotOf[s]];
          stuck := true;
          return;
        }
      } else {
        waited := true;
        assert !Usable(info, slotOf0, v, s) by { NoSlotNotUsable(info, slotOf0, v, s); }
      }
    }
  }

  lemma NoSlotNotUsable(info: map<Name, Value>, m: map<Name, nat>, v: Name, src: Name)
    requires src !in m
    ensures !Usable(info, m, v, src)
  {
  }

  /** `v`'s turn in the first sweep; `wait` puts it off to the second. */
  method ColorFirst(info: map<Name, Value>, pins: Pins, arms: Arms, slots0: seq<Slot>, slotOf0: map<Name, nat>, v: Name)
    returns (slots: seq<Slot>, slotOf: map<Name, nat>, wait: bool)
    requires Coloured(info, pins, arms, slots0, slotOf0) && Hulls(info, slots0, slotOf0) && v in info && v !in slotOf0
    ensures Coloured(info, pins, arms, slots, slotOf) && Hulls(info, slots, slotOf)
    ensures wait <==> Waits(info, pins, arms, slotOf0, v)
    ensures wait ==> slots == slots0 && slotOf == slotOf0 && v in arms
    ensures !wait ==> v in slotOf && slotOf == slotOf0[v := slotOf[v]]
    ensures !wait ==> Takes(info, slotOf0, v, Sources(pins, arms, v), slotOf[v])
  {
    hide Coloured, Hulls, HullMeets, Usable, FirstUsable;
    slots, slotOf, wait := slots0, slotOf0, false;
    var stuck, waited := false, false;
    ghost var tried: seq<Name> := [];
    if v in pins {
      slots, slotOf, stuck, waited := TryPins(info, pins, arms, [pins[v]], slots, slotOf, v);
      tried := [pins[v]];
    }
    assert Sources(pins, arms, v) == tried + ArmsOf(arms, v);
    if stuck {
      FirstOf(info, slotOf0, v, tried, ArmsOf(arms, v), slotOf[v]);
      return;
    }
    if v in arms {
      slots, slotOf, stuck, waited := TryPins(info, pins, arms, arms[v], slots, slotOf, v);
      if stuck {
        LaterOf(info, slotOf0, v, tried, arms[v], slotOf[v]);
        return;
      }
      if waited {
        NoneUsable(info, slotOf0, v, tried, arms[v]);
        return slots, slotOf, true;
      }
    }
    NoneUsable(info, slotOf0, v, tried, ArmsOf(arms, v));
    slots, slotOf := Place(info, pins, arms, slots, slotOf, v);
  }

  lemma FirstOf(info: map<Name, Value>, m: map<Name, nat>, v: Name, a: seq<Name>, b: seq<Name>, s: nat)
    requires FirstUsable(info, m, v, a, s)
    ensures FirstUsable(info, m, v, a + b, s) && exists k :: 0 <= k < |a + b| && Usable(info, m, v, (a + b)[k])
  {
    var k :| 0 <= k < |a| && Usable(info, m, v, a[k]) && s == m[a[k]]
      && forall j :: 0 <= j < k ==> !Usable(info, m, v, a[j]);
    assert (a + b)[k] == a[k];
  }

  lemma LaterOf(info: map<Name, Value>, m: map<Name, nat>, v: Name, a: seq<Name>, b: seq<Name>, s: nat)
    requires FirstUsable(info, m, v, b, s) && forall k :: 0 <= k < |a| ==> !Usable(info, m, v, a[k])
    ensures FirstUsable(info, m, v, a + b, s) && exists k :: 0 <= k < |a + b| && Usable(info, m, v, (a + b)[k])
  {
    var k :| 0 <= k < |b| && Usable(info, m, v, b[k]) && s == m[b[k]]
      && forall j :: 0 <= j < k ==> !Usable(info, m, v, b[j]);
    assert (a + b)[|a| + k] == b[k];
  }

  lemma NoneUsable(info: map<Name, Value>, m: map<Name, nat>, v: Name, a: seq<Name>, b: seq<Name>)
    requires forall k :: 0 <= k < |a| ==> !Usable(info, m, v, a[k])
    requires forall k :: 0 <= k < |b| ==> !Usable(info, m, v, b[k])
    ensures forall k :: 0 <= k < |a + b| ==> !Usable(info, m, v, (a + b)[k])
  {
    hide Usable;
  }

  /** `v`'s turn in the second sweep. */
  method ColorSecond(info: map<Name, Value>, ghost pins: Pins, arms: Arms, slots0: seq<Slot>, slotOf0: map<Name, nat>,
                     v: Name)
    returns (slots: seq<Slot>, slotOf: map<Name, nat>)
    requires Coloured(info, pins, arms, slots0, slotOf0) && Hulls(info, slots0, slotOf0)
    requires v in info && v in arms && v !in slotOf0
    ensures Coloured(info, pins, arms, slots, slotOf) && Hulls(info, slots, slotOf)
    ensures SecondTurn(info, arms, slotOf0, v, slotOf)
  {
    hide Coloured, Hulls, HullMeets, Usable;
    var stuck, waited;
    slots, slotOf, stuck, waited := TryPins(info, pins, arms, arms[v], slots0, slotOf0, v);
    if !stuck {
      slots, slotOf := Place(info, pins, arms, slots, slotOf, v);
    }
  }

  /** Colour the values in the given order; destinations whose diamond arms have no slot yet
      wait for a second sweep. */
  method Color(info: map<Name, Value>, vals: seq<Name>, pins: Pins, arms: Arms)
    returns (slots: seq<Slot>, slotOf: map<Name, nat>)
    requires forall k :: 0 <= k < |vals| ==> vals[k] in info
    requires forall j, k :: 0 <= j < k < |vals| ==> vals[j] != vals[k]
    ensures Coloured(info, pins, arms, slots, slotOf)
    ensures forall v :: v in slotOf <==> v in vals
    ensures Greedy(info, pins, arms, vals, slotOf)
  {
    hide FirstSweep, FirstTurn, SecondSweep, Takes, Waits, Coloured, Hulls;
    slots, slotOf := [], map[];
    SweepNone(info, pins, arms);
    var deferred: seq<Name> := [];
    for k := 0 to |vals|
      invariant Coloured(info, pins, arms, slots, slotOf) && Hulls(info, slots, slotOf)
      invariant forall v :: v in slotOf || v in deferred <==> v in vals[..k]
      invariant forall j :: 0 <= j < |deferred| ==> deferred[j] in info && deferred[j] in arms && deferred[j] !in slotOf
      invariant forall i, j :: 0 <= i < j < |deferred| ==> deferred[i] != deferred[j]
      invariant FirstSweep(info, pins, arms, vals[..k], slotOf, deferred)
    {
      var v := vals[k];
      assert v !in vals[..k];
      ghost var m0, d0 := slotOf, deferred;
      var wait;
      slots, slotOf, wait := ColorFirst(info, pins, arms, slots, slotOf, v);
      if wait { deferred := deferred + [v]; }
      SweepNext(info, pins, arms, vals, k, m0, d0, slotOf, deferred);
      assert vals[..k + 1] == vals[..k] + [v];
    }
    assert vals[..|vals|] == vals;
    slots, slotOf := ColorRest(info, vals, pins, arms, deferred, slots, slotOf);
  }

  lemma SweepNext(info: map<Name, Value>, pins: Pins, arms: Arms, vals: seq<Name>, k: nat,
                  m0: map<Name, nat>, d0: seq<Name>, m: map<Name, nat>, d: seq<Name>)
    requires k < |vals| && forall v <- vals :: v in info
    requires FirstSweep(info, pins, arms, vals[..k], m0, d0)
    requires var v := vals[k];
             if Waits(info, pins, arms, m0, v) then m == m0 && d == d0 + [v]
             else d == d0 && v in m && m == m0[v := m[v]] && Takes(info, m0, v, Sources(pins, arms, v), m[v])
    ensures FirstSweep(info, pins, arms, vals[..k + 1], m, d)
  {
    hide Waits, Takes;
    assert vals[..k + 1][..k] == vals[..k];
    assert FirstTurn(info, pins, arms, m0, d0, vals[k], m, d);
  }

  lemma SweepNone(info: map<Name, Value>, pins: Pins, arms: Arms)
    ensures FirstSweep(info, pins, arms, [], map[], [])
    ensures Coloured(info, pins, arms, [], map[]) && Hulls(info, [], map[])
  {
  }

  method ColorRest(info: map<Name, Value>, ghost vals: seq<Name>, ghost pins: Pins, arms: Arms, deferred: seq<Name>,
                   slots0: seq<Slot>, slotOf0: map<Name, nat>)
    returns (slots: seq<Slot>, slotOf: map<Name, nat>)
    requires Coloured(info, pins, arms, slots0, slotOf0) && Hulls(info, slots0, slotOf0)
    requires forall v :: v in slotOf0 || v in deferred <==> v in vals
    requires forall j :: 0 <= j < |deferred| ==> deferred[j] in info && deferred[j] in arms && deferred[j] !in slotOf0
    requires forall i, j :: 0 <= i < j < |deferred| ==> deferred[i] != deferred[j]
    ensures Coloured(info, pins, arms, slots, slotOf)
    ensures forall v :: v in slotOf <==> v in vals
    ensures SecondSweep(info, arms, slotOf0, deferred, slotOf)
  {
    hide SecondSweep, SecondTurn, Coloured, Hulls;
    slots, slotOf := slots0, slotOf0;
    RestNone(info, arms, slotOf0);
    for k := 0 to |deferred|
      invariant Coloured(info, pins, arms, slots, slotOf) && Hulls(info, slots, slotOf)
      invariant forall v :: v in slotOf <==> v in slotOf0 || v in deferred[..k]
      invariant SecondSweep(info, arms, slotOf0, deferred[..k], slotOf)
    {
      var v := deferred[k];
      assert v !in deferred[..k];
      ghost var m0 := slotOf;
      slots, slotOf := ColorSecond(info, pins, arms, slots, slotOf, v);
      RestNext(info, arms, slotOf0, deferred, k, m0, slotOf);
    }
    assert deferred[..|deferred|] == deferred;
  }

  lemma RestNone(info: map<Name, Value>, arms: Arms, m: map<Name, nat>)
    ensures SecondSweep(info, arms, m, [], m)
  {
  }

  lemma RestNext(info: map<Name, Value>, arms: Arms, m1: map<Name, nat>, d: seq<Name>, k: nat,
                 m0: map<Name, nat>, m: map<Name, nat>)
    requires k < |d| && forall v <- d :: v in info
    requires SecondSweep(info, arms, m1, d[..k], m0) && SecondTurn(info, arms, m0, d[k], m)
    ensures SecondSweep(info, arms, m1, d[..k + 1], m)
    ensures forall v :: v in m <==> v in m0 || v == d[k]
    ensures forall v :: v in d[..k + 1] <==> v in d[..k] || v == d[k]
  {
    hide Takes;
    assert d[..k + 1][..k] == d[..k];
    assert d[..k + 1] == d[..k] + [d[k]];
  }

  // ---- The frame ---------------------------------------------------------------------

  function WidthSum(slots: seq<Slot>): nat {
    if slots == [] then 0 else slots[0].width + WidthSum(slots[1..])
  }

  datatype Layout = Layout(slots: seq<Slot>, slotOf: map<Name, nat>, info: map<Name, Value>)

  /** Values in colouring order: by range start, then placement order. */
  predicate Before(a: Value, b: Value) {
    Lt(a.range.lo, b.range.lo) || (a.range.lo == b.range.lo && a.order <= b.order)
  }

  /** Every value once, in colouring order. */
  ghost predicate InOrder(info: map<Name, Value>, vals: seq<Name>) {
    && (forall v :: v in vals <==> v in info)
    && (forall j, k :: 0 <= j < k < |vals| ==> vals[j] != vals[k])
    && (forall j, k :: 0 <= j < k < |vals| ==>
         vals[j] in info && vals[k] in info && Before(info[vals[j]], info[vals[k]]))
  }

  method SortValues(info: map<Name, Value>) returns (vals: seq<Name>)
    ensures InOrder(info, vals)
  {
    vals := [];
    var todo := info.Keys;
    while todo != {}
      invariant todo <= info.Keys
      invariant forall v :: v in vals <==> v in info && v !in todo
      invariant forall j, k :: 0 <= j < k < |vals| ==> vals[j] != vals[k]
      invariant forall j, k :: 0 <= j < k < |vals| ==>
        vals[j] in info && vals[k] in info && Before(info[vals[j]], info[vals[k]])
    {
      var v :| v in todo;
      todo := todo - {v};
      var i := 0;
      while i < |vals| && Before(info[vals[i]], info[v])
        invariant 0 <= i <= |vals|
        invariant forall j :: 0 <= j < i ==> vals[j] in info && Before(info[vals[j]], info[v])
      {
        i := i + 1;
      }
      vals := Inserted(info, vals, i, v);
    }
  }

  function Inserted(info: map<Name, Value>, vals: seq<Name>, i: nat, v: Name): (r: seq<Name>)
    requires i <= |vals| && v in info && v !in vals
    requires forall k :: 0 <= k < |vals| ==> vals[k] in info
    requires forall j, k :: 0 <= j < k < |vals| ==> vals[j] != vals[k] && Before(info[vals[j]], info[vals[k]])
    requires forall j :: 0 <= j < i ==> Before(info[vals[j]], info[v])
    requires i < |vals| ==> !Before(info[vals[i]], info[v])
    ensures forall w :: w in r <==> w in vals || w == v
    ensures forall k :: 0 <= k < |r| ==> r[k] in info
    ensures forall j, k :: 0 <= j < k < |r| ==> r[j] != r[k] && Before(info[r[j]], info[r[k]])
  {
    var r := vals[..i] + [v] + vals[i..];
    assert r[i] == v;
    assert forall k :: 0 <= k < |vals| ==> vals[k] == r[if k < i then k else k + 1];
    r
  }

  method Ranges(f: Func, F: Facts) returns (info: map<Name, Value>)
    requires IsFacts(f, F) && AllNumbered(f, F.defs)
    ensures info.Keys == F.defs.Keys
    ensures forall v :: v in info ==> info[v] == Value(info[v].range, F.defs[v].width, F.defs[v].order)
    ensures forall v :: v in info ==> IsRange(f, F, v, info[v].range) && OwnWidth(f, v, info[v].width)
  {
    info := map[];
    var todo := F.defs.Keys;
    while todo != {}
      invariant todo <= F.defs.Keys && info.Keys == F.defs.Keys - todo
      invariant forall v :: v in info ==> info[v] == Value(info[v].range, F.defs[v].width, F.defs[v].order)
      invariant forall v :: v in info ==> IsRange(f, F, v, info[v].range) && OwnWidth(f, v, info[v].width)
    {
      var v :| v in todo;
      todo := todo - {v};
      var r := LiveRangeOf(f, F, v);
      FactsNumbered(f, F, v);
      info := info[v := Value(r, F.defs[v].width, F.defs[v].order)];
    }
  }

  lemma FactsNumbered(f: Func, F: Facts, v: Name)
    requires IsFacts(f, F) && AllNumbered(f, F.defs) && v in F.defs
    ensures OwnWidth(f, v, F.defs[v].width)
  {
    hide WellFormed, OwnWidth;
    NumberedWidth(f, v, F.defs[v]);
  }

  /** The frame of `f`. The diamond-pinned colouring is kept only when its width sum is
      strictly smaller than the base one's. */
  method FrameLayout(f: Func, pins: Pins, diamond: Arms)
    returns (F: Facts, lay: Layout, ghost base: Layout, ghost pinned: Layout, ghost vals: seq<Name>)
    requires WellFormed(f)
    ensures IsFacts(f, F) && AllNumbered(f, F.defs) && lay.info.Keys == F.defs.Keys == lay.slotOf.Keys
    ensures forall v :: v in lay.info ==>
      IsRange(f, F, v, lay.info[v].range) && OwnWidth(f, v, lay.info[v].width) && lay.info[v].order == F.defs[v].order
    ensures base.info == pinned.info == lay.info
    ensures Coloured(base.info, pins, map[], base.slots, base.slotOf)
    ensures Coloured(pinned.info, pins, diamond, pinned.slots, pinned.slotOf)
    ensures InOrder(lay.info, vals) && Greedy(lay.info, pins, map[], vals, base.slotOf)
    ensures Greedy(lay.info, pins, diamond, vals, pinned.slotOf)
    ensures lay == if diamond != map[] && WidthSum(pinned.slots) < WidthSum(base.slots) then pinned else base
  {
    hide Coloured, IsFacts, AllNumbered, OwnWidth, IsRange, WellFormed, Greedy, Before;
    F := Analyse(f);
    var info := Ranges(f, F);
    var sorted := SortValues(info);
    vals := sorted;
    var slots, slotOf := Color(info, sorted, pins, map[]);
    base := Layout(slots, slotOf, info);
    lay, pinned := Layout(slots, slotOf, info), base;
    assert Coloured(info, pins, diamond, slots, slotOf) by { MoreArms(info, pins, diamond, slots, slotOf); }
    if diamond != map[] {
      var pinSlots, pinOf := Color(info, sorted, pins, diamond);
      pinned := Layout(pinSlots, pinOf, info);
      if WidthSum(pinSlots) < WidthSum(slots) {
        lay := Layout(pinSlots, pinOf, info);
      }
    }
  }

  lemma MoreArms(info: map<Name, Value>, pins: Pins, arms: Arms, slots: seq<Slot>, slotOf: map<Name, nat>)
    requires Coloured(info, pins, map[], slots, slotOf)
    ensures Coloured(info, pins, arms, slots, slotOf)
  {
    forall u, v | u in slotOf && v in slotOf && u != v && slotOf[u] == slotOf[v]
      ensures Compatible(info, pins, arms, u, v)
    {
      assert Compatible(info, pins, map[], u, v);
    }
  }
}
