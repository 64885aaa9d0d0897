/** Base assignment of the overlay: where each function's frame starts, given its callers'
    frames, and the disjoint regions of the interrupt contexts. Functions are numbered. */
module Overlay {
  import opened Wrappers
  import opened Points
  import opened Devices
  import opened Placement
  import opened Ir
  import opened Cfg

  /** A value's slot in its frame and the range over which it is live. */
  datatype LiveSlot = LiveSlot(slot: nat, range: Range)

  datatype FuncFrame = FuncFrame(
    widths: seq<nat>, live: map<Name, LiveSlot>, heat: seq<nat>,
    routine: bool,      // a runtime routine: its frame must stay in one bank
    homed: bool,        // receives homed arguments: never dips
    isr: bool, priority: nat)

  /** A call site: the caller, the point of the call and the value it defines. */
  datatype Site = Site(caller: nat, at: Point, result: Option<Name>)

  datatype Dip = Off | IsrOnly | All

  datatype Program = Program(
    d: Device, funcs: seq<FuncFrame>, edges: Graph, callers: Graph, sites: seq<seq<Site>>,
    topo: seq<nat>, dip: Dip)

  ghost predicate Valid(p: Program) {
    && p.d.Valid()
    && |p.funcs| == |p.edges| == |p.callers| == |p.sites|
    && Closed(p.edges) && Transposed(p.edges, p.callers)
    && (forall f :: 0 <= f < |p.funcs| ==> ValidFrame(p.funcs[f]))
    && (forall f, k :: 0 <= f < |p.sites| && 0 <= k < |p.sites[f]| ==> Edge(p.edges, p.sites[f][k].caller, f))
    && IsTopological(p.edges, p.topo)
  }

  ghost predicate ValidFrame(fr: FuncFrame) {
    && (forall k :: 0 <= k < |fr.widths| ==> 0 < fr.widths[k] <= 255)
    && (forall v :: v in fr.live ==> fr.live[v].slot < |fr.widths|)
    && |fr.heat| == |fr.widths|
  }

  /** Every function once, callers before callees. */
  ghost predicate IsTopological(g: Graph, topo: seq<nat>) {
    && (forall k :: 0 <= k < |topo| ==> topo[k] < |g|)
    && (forall f: nat :: f < |g| ==> f in topo)
    && (forall j, k :: 0 <= j < k < |topo| ==> topo[j] != topo[k] && !Edge(g, topo[k], topo[j]))
    && (forall k :: 0 <= k < |topo| ==> !Edge(g, topo[k], topo[k]))
  }

  // ---- Live bytes at a call ----------------------------------------------------------

  /** `v` must survive the call at `s`: its range spans the site and it is not the result. */
  predicate LiveAcross(fr: FuncFrame, s: Site, v: Name) {
    v in fr.live && Contains(fr.live[v].range, s.at) && s.result != Some(v)
  }

  /** A callee frame starting at `b` leaves every byte of `fr`, based at `base`, that is live
      across `s`. */
  ghost predicate ClearOf(d: Device, base: nat, fr: FuncFrame, s: Site, b: nat)
    requires ValidFrame(fr) && FrameEnd(d, base, fr.widths).Some?
  {
    && base <= b
    && forall v ::
         v in fr.live && Le(fr.live[v].range.lo, s.at) && Le(s.at, fr.live[v].range.hi) && s.result != Some(v) ==>
         SlotAddrs(d, base, fr.widths)[fr.live[v].slot] + fr.widths[fr.live[v].slot] <= b
  }

  /** The highest slot below `n` that holds a value live across `s`. */
  ghost function TopLive(fr: FuncFrame, s: Site, n: nat): (r: Option<nat>)
    ensures r.Some? ==> r.value < n
  {
    if n == 0 then None
    else if HoldsLive(fr, s, n - 1) then Some(n - 1)
    else TopLive(fr, s, n - 1)
  }

  ghost predicate HoldsLive(fr: FuncFrame, s: Site, k: nat) {
    exists v :: LiveAcross(fr, s, v) && fr.live[v].slot == k
  }

  /** Where the caller's frame would end were it cut off behind that slot. */
  ghost function LiveHighAt(d: Device, base: nat, fr: FuncFrame, s: Site): Option<nat> {
    match TopLive(fr, s, |fr.widths|)
    case None => Some(base)
    case Some(k) => FrameEnd(d, base, fr.widths[..k + 1])
  }

  lemma {:induction false} TopLiveIs(fr: FuncFrame, s: Site, n: nat, k: nat)
    requires k < n && HoldsLive(fr, s, k) && forall j :: k < j < n ==> !HoldsLive(fr, s, j)
    ensures TopLive(fr, s, n) == Some(k)
  {
    if k < n - 1 { TopLiveIs(fr, s, n - 1, k); }
  }

  lemma {:induction false} TopLiveNone(fr: FuncFrame, s: Site, n: nat)
    requires forall j :: 0 <= j < n ==> !HoldsLive(fr, s, j)
    ensures TopLive(fr, s, n) == None
  {
    if n > 0 { TopLiveNone(fr, s, n - 1); }
  }

  /** The least base, at or above the caller's own, that is clear of the live bytes. */
  method LiveHigh(d: Device, base: nat, fr: FuncFrame, s: Site) returns (r: Option<nat>)
    requires d.Valid() && ValidFrame(fr) && FrameEnd(d, base, fr.widths).Some?
    ensures r == LiveHighAt(d, base, fr, s)
    ensures r.Some? && ClearOf(d, base, fr, s, r.value)
    ensures r.value <= FrameEnd(d, base, fr.widths).value
    ensures forall b :: ClearOf(d, base, fr, s, b) ==> r.value <= b
  {
    var top: Option<nat> := None;
    var todo := fr.live.Keys;
    while todo != {}
      invariant todo <= fr.live.Keys
      invariant top.Some? ==> top.value < |fr.widths| && HoldsLive(fr, s, top.value)
      invariant forall v :: v !in todo && LiveAcross(fr, s, v) ==> top.Some? && fr.live[v].slot <= top.value
    {
      var v :| v in todo;
      todo := todo - {v};
      if LiveAcross(fr, s, v) && (top.None? || top.value < fr.live[v].slot) {
        top := Some(fr.live[v].slot);
      }
    }
    SlotsInOrder(d, base, fr.widths);
    if top.None? {
      TopLiveNone(fr, s, |fr.widths|);
      return Some(base);
    }
    var k := top.value;
    TopLiveIs(fr, s, |fr.widths|, k);
    r := ComputeFrameEnd(d, base, fr.widths[..k + 1]);
    PrefixEnd(d, base, fr.widths, k);
    ghost var addrs := SlotAddrs(d, base, fr.widths);
    forall v | LiveAcross(fr, s, v) ensures addrs[fr.live[v].slot] + fr.widths[fr.live[v].slot] <= r.value {
      assert fr.live[v].slot <= k;
    }
  }

  lemma {:induction false} TopLiveAbove(fr: FuncFrame, s: Site, n: nat, v: Name)
    requires LiveAcross(fr, s, v) && fr.live[v].slot < n
    ensures TopLive(fr, s, n).Some? && fr.live[v].slot <= TopLive(fr, s, n).value
  {
    if n - 1 > fr.live[v].slot { TopLiveAbove(fr, s, n - 1, v); }
  }

  lemma LiveHighClear(d: Device, base: nat, fr: FuncFrame, s: Site, b: nat)
    requires d.Valid() && ValidFrame(fr) && FrameEnd(d, base, fr.widths).Some?
    requires LiveHighAt(d, base, fr, s).Some? && LiveHighAt(d, base, fr, s).value <= b
    ensures ClearOf(d, base, fr, s, b)
  {
    SlotsInOrder(d, base, fr.widths);
    var top := TopLive(fr, s, |fr.widths|);
    if top.Some? { PrefixEnd(d, base, fr.widths, top.value); }
    forall v | LiveAcross(fr, s, v)
      ensures SlotAddrs(d, base, fr.widths)[fr.live[v].slot] + fr.widths[fr.live[v].slot] <= b {
      TopLiveAbove(fr, s, |fr.widths|, v);
    }
  }

  lemma LiveHighLow(d: Device, base: nat, fr: FuncFrame, s: Site)
    requires d.Valid() && FrameEnd(d, base, fr.widths).Some?
    ensures LiveHighAt(d, base, fr, s).Some?
    ensures LiveHighAt(d, base, fr, s).value <= FrameEnd(d, base, fr.widths).value
  {
    SlotsInOrder(d, base, fr.widths);
    var top := TopLive(fr, s, |fr.widths|);
    if top.Some? { PrefixEnd(d, base, fr.widths, top.value); }
  }

  /** The bank-select key of an address. */
  function BankKey(d: Device, addr: nat): (nat, bool) {
    if d.core.Pic18? then
      (addr / 256 * 2 + (if d.accessBank.Some? && d.accessBank.value.lo <= addr <= d.accessBank.value.hi then 1 else 0),
       true)
    else
      (match d.RegionIndex(addr) case Some(i) => i case None => |d.banks|, false)
  }

  // ---- One function's base -----------------------------------------------------------

  /** `f` has a base and its frame fits the device there. */
  ghost predicate Placed(p: Program, base: map<nat, nat>, f: nat) {
    f < |p.funcs| && f in base && FrameEnd(p.d, base[f], p.funcs[f].widths).Some?
  }

  ghost function EndOf(p: Program, base: map<nat, nat>, f: nat): nat
    requires Placed(p, base, f)
  {
    FrameEnd(p.d, base[f], p.funcs[f].widths).value
  }

  /** A frame of `f` at `b` is at or above every caller's base and clear of what every call
      site keeps live; with the dip off it is above every caller's whole frame. */
  ghost predicate AboveCallers(p: Program, base: map<nat, nat>, f: nat, b: nat)
    requires Valid(p) && f < |p.funcs|
  {
    && (forall c: nat :: Edge(p.edges, c, f) ==> Placed(p, base, c) && base[c] <= b)
    && (p.dip == Off ==> forall c: nat :: Edge(p.edges, c, f) ==> EndOf(p, base, c) <= b)
    && (forall k :: 0 <= k < |p.sites[f]| ==>
          && Placed(p, base, p.sites[f][k].caller)
          && ClearOf(p.d, base[p.sites[f][k].caller], p.funcs[p.sites[f][k].caller], p.sites[f][k], b))
  }

  ghost predicate CallersPlaced(p: Program, base: map<nat, nat>, f: nat) {
    forall c: nat :: Edge(p.edges, c, f) ==> Placed(p, base, c)
  }

  /** Where the frame of `c` ends, once `c` is placed. */
  ghost function EndAt(p: Program, base: map<nat, nat>, c: nat): Option<nat> {
    if c < |p.funcs| && c in base then FrameEnd(p.d, base[c], p.funcs[c].widths) else None
  }

  /** The highest end among the first `n` callers of `f`. */
  ghost function CallersEnd(p: Program, base: map<nat, nat>, f: nat, n: nat): Option<nat>
    requires f < |p.callers| && n <= |p.callers[f]|
  {
    if n == 0 then Some(0)
    else match (CallersEnd(p, base, f, n - 1), EndAt(p, base, p.callers[f][n - 1]))
      case (Some(a), Some(b)) => Some(Max(a, b))
      case _ => None
  }

  ghost function SiteHigh(p: Program, base: map<nat, nat>, s: Site): Option<nat> {
    if s.caller < |p.funcs| && s.caller in base then LiveHighAt(p.d, base[s.caller], p.funcs[s.caller], s) else None
  }

  /** The greatest live-high over the first `n` call sites of `f`. */
  ghost function SitesHigh(p: Program, base: map<nat, nat>, f: nat, n: nat): Option<nat>
    requires f < |p.sites| && n <= |p.sites[f]|
  {
    if n == 0 then Some(0)
    else match (SitesHigh(p, base, f, n - 1), SiteHigh(p, base, p.sites[f][n - 1]))
      case (Some(a), Some(b)) => Some(Max(a, b))
      case _ => None
  }

  /** The caller-end rule: the highest caller frame end, or the region start. */
  ghost function EndRule(p: Program, base: map<nat, nat>, f: nat, fallback: nat): Option<nat>
    requires f < |p.callers|
  {
    if p.callers[f] == [] then Some(fallback) else CallersEnd(p, base, f, |p.callers[f]|)
  }

  /** The base of `f` before rounding: the caller-end rule, or the dip where it keeps the bank
      selects of the frame's start and end. `None`: one of the frames compared has no place. */
  ghost function KeptBase(p: Program, base: map<nat, nat>, f: nat, dip: bool, fallback: nat): Option<nat>
    requires |p.funcs| == |p.callers| == |p.sites| && f < |p.funcs|
  {
    var end := EndRule(p, base, f, fallback);
    if end.None? || !dip || p.funcs[f].homed || p.sites[f] == [] then end
    else
      match SitesHigh(p, base, f, |p.sites[f]|)
      case None => None
      case Some(d) =>
        match KeepsBanks(p.d, p.funcs[f].widths, d, end.value)
        case None => None
        case Some(same) => Some(if same then d else end.value)
  }

  ghost function KeepsBanks(d: Device, widths: seq<nat>, a: nat, b: nat): Option<bool> {
    if BankKey(d, a) != BankKey(d, b) then Some(false)
    else match (FrameEnd(d, a, widths), FrameEnd(d, b, widths))
      case (Some(ea), Some(eb)) => Some(BankKey(d, ea) == BankKey(d, eb))
      case _ => None
  }

  ghost function RoundedBase(p: Program, f: nat, b: nat): Option<nat>
    requires f < |p.funcs|
  {
    if !p.funcs[f].routine || p.d.core.PicBaseline? then Some(b) else SnappedBase(p.d, b, p.funcs[f].widths)
  }

  ghost function BaseOf(p: Program, base: map<nat, nat>, f: nat, dip: bool, fallback: nat): Option<nat>
    requires |p.funcs| == |p.callers| == |p.sites| && f < |p.funcs|
  {
    match KeptBase(p, base, f, dip, fallback)
    case None => None
    case Some(b) => RoundedBase(p, f, b)
  }

  /** `base` with `f` placed too; `None` when its frame has no place there. */
  ghost function WithPlaced(p: Program, base: map<nat, nat>, f: nat, dip: bool, fallback: nat): Option<map<nat, nat>>
    requires |p.funcs| == |p.callers| == |p.sites| && f < |p.funcs|
  {
    match BaseOf(p, base, f, dip, fallback)
    case None => None
    case Some(b) => if FrameEnd(p.d, b, p.funcs[f].widths).None? then None else Some(base[f := b])
  }

  /** The bases after the first `k` functions of the order. */
  ghost function MainUpTo(p: Program, start: nat, k: nat): Option<map<nat, nat>>
    requires Valid(p) && k <= |p.topo|
  {
    if k == 0 then Some(map[])
    else match MainUpTo(p, start, k - 1)
      case None => None
      case Some(base) => WithPlaced(p, base, p.topo[k - 1], p.dip == All, start)
  }

  /** The main pass. */
  ghost function MainBases(p: Program, start: nat): Option<map<nat, nat>>
    requires Valid(p)
  {
    MainUpTo(p, start, |p.topo|)
  }

  lemma {:induction false} CallersEndIs(p: Program, base: map<nat, nat>, f: nat, n: nat)
    requires Valid(p) && f < |p.funcs| && CallersPlaced(p, base, f) && n <= |p.callers[f]|
    ensures CallersEnd(p, base, f, n).Some?
    ensures forall k :: 0 <= k < n ==>
      EndAt(p, base, p.callers[f][k]).Some? && EndAt(p, base, p.callers[f][k]).value <= CallersEnd(p, base, f, n).value
    ensures n > 0 ==> exists k :: 0 <= k < n && EndAt(p, base, p.callers[f][k]) == CallersEnd(p, base, f, n)
  {
    if n > 0 {
      CallersEndIs(p, base, f, n - 1);
      assert Edge(p.callers, f, p.callers[f][n - 1]);
      assert Edge(p.edges, p.callers[f][n - 1], f);
    }
  }

  lemma CallerListed(p: Program, f: nat, c: nat) returns (k: nat)
    requires Valid(p) && f < |p.funcs| && Edge(p.edges, c, f)
    ensures k < |p.callers[f]| && p.callers[f][k] == c
  {
    assert Edge(p.callers, f, c);
    k :| 0 <= k < |p.callers[f]| && p.callers[f][k] == c;
  }

  /** The rule's result is the highest caller frame end. */
  lemma EndRuleIs(p: Program, base: map<nat, nat>, f: nat, fallback: nat)
    requires Valid(p) && f < |p.funcs| && CallersPlaced(p, base, f)
    ensures EndRule(p, base, f, fallback).Some?
    ensures forall c: nat :: Edge(p.edges, c, f) ==> EndOf(p, base, c) <= EndRule(p, base, f, fallback).value
    ensures p.callers[f] != [] ==>
      exists c: nat :: Edge(p.edges, c, f) && EndOf(p, base, c) == EndRule(p, base, f, fallback).value
  {
    hide ValidFrame, FrameEnd, CallersEnd;
    var n := |p.callers[f]|;
    CallersEndIs(p, base, f, n);
    forall c: nat | Edge(p.edges, c, f) ensures EndOf(p, base, c) <= EndRule(p, base, f, fallback).value {
      var k := CallerListed(p, f, c);
    }
    if n > 0 {
      var k :| 0 <= k < n && EndAt(p, base, p.callers[f][k]) == CallersEnd(p, base, f, n);
      assert Edge(p.callers, f, p.callers[f][k]);
      assert Edge(p.edges, p.callers[f][k], f);
    }
  }

  /** The caller-end rule. */
  method CallerEnd(p: Program, base: map<nat, nat>, f: nat, fallback: nat) returns (r: Option<nat>)
    requires Valid(p) && f < |p.funcs| && CallersPlaced(p, base, f)
    ensures r.Some? && r == EndRule(p, base, f, fallback)
    ensures forall c: nat :: Edge(p.edges, c, f) ==> EndOf(p, base, c) <= r.value
    ensures p.callers[f] == [] ==> r.value == fallback
    ensures p.callers[f] != [] ==> exists c: nat :: Edge(p.edges, c, f) && EndOf(p, base, c) == r.value
  {
    EndRuleIs(p, base, f, fallback);
    if p.callers[f] == [] { return Some(fallback); }
    var best := 0;
    for k := 0 to |p.callers[f]|
      invariant CallersEnd(p, base, f, k) == Some(best)
    {
      var c := p.callers[f][k];
      assert Edge(p.callers, f, c);
      assert Edge(p.edges, c, f);
      var e := ComputeFrameEnd(p.d, base[c], p.funcs[c].widths);
      if k == 0 || e.value > best { best := e.value; }
    }
    r := Some(best);
  }

  lemma {:induction false} SitesHighIs(p: Program, base: map<nat, nat>, f: nat, n: nat)
    requires Valid(p) && f < |p.funcs| && CallersPlaced(p, base, f) && n <= |p.sites[f]|
    ensures SitesHigh(p, base, f, n).Some?
    ensures forall k :: 0 <= k < n ==>
      SiteHigh(p, base, p.sites[f][k]).Some? && SiteHigh(p, base, p.sites[f][k]).value <= SitesHigh(p, base, f, n).value
    ensures n > 0 ==> exists k :: 0 <= k < n && SiteHigh(p, base, p.sites[f][k]) == SitesHigh(p, base, f, n)
  {
    if n > 0 {
      SitesHighIs(p, base, f, n - 1);
      var s := p.sites[f][n - 1];
      assert Edge(p.edges, s.caller, f);
      LiveHighLow(p.d, base[s.caller], p.funcs[s.caller], s);
    }
  }

  /** The greatest live-high over the call sites, `None` without sites. */
  method DippedBase(p: Program, base: map<nat, nat>, f: nat) returns (r: Option<nat>)
    requires Valid(p) && f < |p.funcs| && CallersPlaced(p, base, f)
    ensures r == if p.sites[f] == [] then None else SitesHigh(p, base, f, |p.sites[f]|)
    ensures r.None? <==> p.sites[f] == []
    ensures r.Some? ==> exists k :: 0 <= k < |p.sites[f]| && SiteHigh(p, base, p.sites[f][k]) == r
    ensures r.Some? ==> forall k :: 0 <= k < |p.sites[f]| ==>
      && Placed(p, base, p.sites[f][k].caller)
      && ClearOf(p.d, base[p.sites[f][k].caller], p.funcs[p.sites[f][k].caller], p.sites[f][k], r.value)
  {
    DipIsClear(p, base, f);
    hide ValidFrame, FrameEnd, LiveHighAt, ClearOf;
    if p.sites[f] == [] { return None; }
    var top := 0;
    for k := 0 to |p.sites[f]|
      invariant SitesHigh(p, base, f, k) == Some(top)
    {
      var s := p.sites[f][k];
      assert Edge(p.edges, s.caller, f);
      var h := LiveHigh(p.d, base[s.caller], p.funcs[s.caller], s);
      top := Max(top, h.value);
    }
    r := Some(top);
  }

  lemma DipIsClear(p: Program, base: map<nat, nat>, f: nat)
    requires Valid(p) && f < |p.funcs| && CallersPlaced(p, base, f)
    ensures var d := SitesHigh(p, base, f, |p.sites[f]|);
      && d.Some?
      && (p.sites[f] != [] ==> exists k :: 0 <= k < |p.sites[f]| && SiteHigh(p, base, p.sites[f][k]) == d)
      && forall k :: 0 <= k < |p.sites[f]| ==>
           && Placed(p, base, p.sites[f][k].caller)
           && ClearOf(p.d, base[p.sites[f][k].caller], p.funcs[p.sites[f][k].caller], p.sites[f][k], d.value)
  {
    hide FrameEnd, LiveHighAt, ClearOf, SitesHigh, ValidFrame;
    SitesHighIs(p, base, f, |p.sites[f]|);
    var d := SitesHigh(p, base, f, |p.sites[f]|);
    forall k | 0 <= k < |p.sites[f]|
      ensures Placed(p, base, p.sites[f][k].caller)
        && ClearOf(p.d, base[p.sites[f][k].caller], p.funcs[p.sites[f][k].caller], p.sites[f][k], d.value)
    {
      var s := p.sites[f][k];
      assert Edge(p.edges, s.caller, f);
      LiveHighClear(p.d, base[s.caller], p.funcs[s.caller], s, d.value);
    }
  }

  /** A frame placed at its caller's end, or above, is clear of everything the caller holds. */
  lemma EndIsClear(d: Device, base: nat, fr: FuncFrame, s: Site, b: nat)
    requires d.Valid() && ValidFrame(fr) && FrameEnd(d, base, fr.widths).Some?
    requires FrameEnd(d, base, fr.widths).value <= b
    ensures ClearOf(d, base, fr, s, b)
  {
    SlotsInOrder(d, base, fr.widths);
  }

  /** Every caller reaches `f` through at least one recorded site. */
  ghost predicate SitesCover(p: Program, f: nat)
    requires f < |p.sites|
  {
    forall c: nat :: Edge(p.edges, c, f) ==> exists k :: 0 <= k < |p.sites[f]| && p.sites[f][k].caller == c
  }

  /** One function's base. */
  method BaseFor(p: Program, base: map<nat, nat>, f: nat, dip: bool, fallback: nat) returns (r: Option<nat>)
    requires Valid(p) && f < |p.funcs| && SitesCover(p, f) && CallersPlaced(p, base, f)
    requires p.dip == Off ==> !dip
    ensures r == BaseOf(p, base, f, dip, fallback)
    ensures r.Some? ==> RuledTo(p, base, f, dip, fallback, r.value)
    ensures r.None? || FrameEnd(p.d, r.value, p.funcs[f].widths).None? <==> Stuck(p, base, f, dip, fallback)
    ensures r.Some? ==> AboveCallers(p, base, f, r.value)
    ensures r.Some? && p.callers[f] == [] ==> r.value >= fallback && (!p.funcs[f].routine ==> r.value == fallback)
    ensures r.Some? && (!dip || p.funcs[f].homed) ==>
      forall c: nat :: Edge(p.edges, c, f) ==> EndOf(p, base, c) <= r.value
  {
    hide AboveCallers, Stuck, SitesCover, CallersEnd, SitesHigh, RuledTo;
    StuckIs(p, base, f, dip, fallback);
    if BaseOf(p, base, f, dip, fallback).Some? { BaseIsRuled(p, base, f, dip, fallback); }
    NoCallersNoSites(p, f);
    var end := CallerEnd(p, base, f, fallback);
    var b := end.value;
    EndAbove(p, base, f, fallback);
    if dip && !p.funcs[f].homed {
      var dipped := DippedBase(p, base, f);
      if dipped.Some? {
        DipAbove(p, base, f);
        var same := SameBanks(p.d, p.funcs[f].widths, dipped.value, b);
        if same.None? { return None; }
        if same.value { b := dipped.value; }
      }
    }
    assert AboveCallers(p, base, f, b);
    r := Rounded(p, f, b);
    if r.Some? { HigherIsClear(p, base, f, b, r.value); }
  }

  lemma EndAbove(p: Program, base: map<nat, nat>, f: nat, fallback: nat)
    requires Valid(p) && f < |p.funcs| && CallersPlaced(p, base, f)
    ensures EndRule(p, base, f, fallback).Some? && AboveCallers(p, base, f, EndRule(p, base, f, fallback).value)
  {
    EndRuleIs(p, base, f, fallback);
    var b := EndRule(p, base, f, fallback).value;
    forall k | 0 <= k < |p.sites[f]|
      ensures Placed(p, base, p.sites[f][k].caller)
        && ClearOf(p.d, base[p.sites[f][k].caller], p.funcs[p.sites[f][k].caller], p.sites[f][k], b)
    {
      var s := p.sites[f][k];
      assert Edge(p.edges, s.caller, f);
      EndIsClear(p.d, base[s.caller], p.funcs[s.caller], s, b);
    }
    forall c: nat | Edge(p.edges, c, f) ensures base[c] <= b {
      SlotsInOrder(p.d, base[c], p.funcs[c].widths);
    }
  }

  lemma DipAbove(p: Program, base: map<nat, nat>, f: nat)
    requires Valid(p) && f < |p.funcs| && CallersPlaced(p, base, f) && SitesCover(p, f) && p.dip != Off
    ensures SitesHigh(p, base, f, |p.sites[f]|).Some?
    ensures AboveCallers(p, base, f, SitesHigh(p, base, f, |p.sites[f]|).value)
  {
    hide SitesHigh, ValidFrame, FrameEnd;
    DipIsClear(p, base, f);
    var b := SitesHigh(p, base, f, |p.sites[f]|).value;
    forall c: nat | Edge(p.edges, c, f) ensures base[c] <= b {
      var k :| 0 <= k < |p.sites[f]| && p.sites[f][k].caller == c;
    }
  }

  lemma NoCallersNoSites(p: Program, f: nat)
    requires Valid(p) && f < |p.funcs|
    ensures p.callers[f] == [] ==> p.sites[f] == []
  {
    if p.sites[f] != [] {
      assert Edge(p.edges, p.sites[f][0].caller, f);
      assert Edge(p.callers, f, p.sites[f][0].caller);
    }
  }

  lemma HigherIsClear(p: Program, base: map<nat, nat>, f: nat, b: nat, b': nat)
    requires Valid(p) && f < |p.funcs| && AboveCallers(p, base, f, b) && b <= b'
    ensures AboveCallers(p, base, f, b')
  {
  }

  /** Whether a frame keeps the bank selects of its start and end when moved from `b` to `a`.
      `None` when the frame does not fit. */
  method SameBanks(d: Device, widths: seq<nat>, a: nat, b: nat) returns (r: Option<bool>)
    requires d.Valid() && forall k :: 0 <= k < |widths| ==> widths[k] <= 255
    ensures r == KeepsBanks(d, widths, a, b)
  {
    if BankKey(d, a) != BankKey(d, b) { return Some(false); }
    var ea := ComputeFrameEnd(d, a, widths);
    var eb := ComputeFrameEnd(d, b, widths);
    if ea.None? || eb.None? { return None; }
    r := Some(BankKey(d, ea.value) == BankKey(d, eb.value));
  }

  /** The base after a runtime routine's rounding; other functions and baseline parts keep it. */
  method Rounded(p: Program, f: nat, b: nat) returns (r: Option<nat>)
    requires Valid(p) && f < |p.funcs|
    ensures r.Some? ==> r.value >= b && (!p.funcs[f].routine ==> r.value == b)
    ensures r == RoundedBase(p, f, b)
  {
    if !p.funcs[f].routine || p.d.core.PicBaseline? { return Some(b); }
    r := RoutineBase(p.d, b, p.funcs[f].widths);
    if r.Some? && p.funcs[f].widths != [] {
      RoutineStaysInOneBank(p.d, b, p.funcs[f].widths);
    }
  }

  // ---- When a function has no place --------------------------------------------------

  /** `f` has no place: its frame does not fit at the callers' end, or it is a routine and
      does not fit, or has no bank left, where rounding moves it. */
  ghost predicate Stuck(p: Program, base: map<nat, nat>, f: nat, dip: bool, fallback: nat)
    requires |p.funcs| == |p.callers| == |p.sites| && f < |p.funcs|
  {
    var end, ws := EndRule(p, base, f, fallback), p.funcs[f].widths;
    || end.None? || FrameEnd(p.d, end.value, ws).None?
    || (p.funcs[f].routine && !p.d.core.PicBaseline?
        && var b := KeptBase(p, base, f, dip, fallback);
           b.None? || SnappedBase(p.d, b.value, ws).None?
           || FrameEnd(p.d, SnappedBase(p.d, b.value, ws).value, ws).None?)
  }

  /** A frame that fits at `b` fits anywhere below. */
  lemma {:induction false} FitsLower(d: Device, a: nat, b: nat, widths: seq<nat>)
    requires d.Valid() && a <= b && FrameEnd(d, b, widths).Some?
    ensures FrameEnd(d, a, widths).Some?
    decreases |widths|
  {
    if widths != [] {
      PlaceMonotone(d, a, b, widths[0]);
      FitsLower(d, Place(d, a, widths[0]).value + widths[0], Place(d, b, widths[0]).value + widths[0], widths[1..]);
    }
  }

  /** A dip never goes above the callers' end. */
  lemma SitesHighLow(p: Program, base: map<nat, nat>, f: nat, fallback: nat)
    requires Valid(p) && f < |p.funcs| && CallersPlaced(p, base, f) && p.sites[f] != []
    ensures var d := SitesHigh(p, base, f, |p.sites[f]|); var end := EndRule(p, base, f, fallback);
            d.Some? && end.Some? && d.value <= end.value
  {
    hide EndRule, SitesHigh, CallersEnd, FrameEnd, LiveHighAt, ValidFrame;
    SitesHighIs(p, base, f, |p.sites[f]|);
    EndRuleIs(p, base, f, fallback);
    var k :| 0 <= k < |p.sites[f]| && SiteHigh(p, base, p.sites[f][k]) == SitesHigh(p, base, f, |p.sites[f]|);
    var s := p.sites[f][k];
    assert Edge(p.edges, s.caller, f);
    LiveHighLow(p.d, base[s.caller], p.funcs[s.caller], s);
  }

  /** That is the only way the placement of one function fails. */
  lemma StuckIs(p: Program, base: map<nat, nat>, f: nat, dip: bool, fallback: nat)
    requires Valid(p) && f < |p.funcs| && CallersPlaced(p, base, f)
    ensures WithPlaced(p, base, f, dip, fallback).None? <==> Stuck(p, base, f, dip, fallback)
  {
    assert p.d.Valid() && |p.funcs| == |p.callers| == |p.sites|;
    hide Valid, EndRule, SitesHigh, CallersPlaced;
    EndRuleIs(p, base, f, fallback);
    var end := EndRule(p, base, f, fallback).value;
    if p.sites[f] != [] {
      SitesHighLow(p, base, f, fallback);
      var d := SitesHigh(p, base, f, |p.sites[f]|).value;
      if FrameEnd(p.d, end, p.funcs[f].widths).Some? { FitsLower(p.d, d, end, p.funcs[f].widths); }
    }
  }

  // ---- The rule, from the addresses --------------------------------------------------

  /** Two addresses need the same bank select: on PIC18 the same 256-byte bank and the same side
      of the access window, elsewhere the same region, that of the next one for a gap. */
  ghost predicate SameSelect(d: Device, a: nat, b: nat) {
    if d.core.Pic18? then
      a / 256 == b / 256
      && (d.accessBank.Some? ==> var w := d.accessBank.value; (w.lo <= a <= w.hi <==> w.lo <= b <= w.hi))
    else forall i :: 0 <= i < |d.banks| ==> (a <= d.banks[i].hi <==> b <= d.banks[i].hi)
  }

  /** `a` is at or above every caller's base and clear of what every call site keeps live. */
  ghost predicate ClearOfSites(p: Program, base: map<nat, nat>, f: nat, a: nat)
    requires Valid(p) && f < |p.funcs|
  {
    && (forall c: nat :: Edge(p.edges, c, f) ==> Placed(p, base, c) && base[c] <= a)
    && (forall k :: 0 <= k < |p.sites[f]| ==>
          && Placed(p, base, p.sites[f][k].caller)
          && ClearOf(p.d, base[p.sites[f][k].caller], p.funcs[p.sites[f][k].caller], p.sites[f][k], a))
  }

  ghost predicate LeastClear(p: Program, base: map<nat, nat>, f: nat, a: nat)
    requires Valid(p) && f < |p.funcs|
  {
    ClearOfSites(p, base, f, a) && forall b: nat :: ClearOfSites(p, base, f, b) ==> a <= b
  }

  ghost predicate HighestCallerEnd(p: Program, base: map<nat, nat>, f: nat, e: nat) {
    && (forall c: nat :: Edge(p.edges, c, f) ==> Placed(p, base, c) && EndOf(p, base, c) <= e)
    && exists c: nat :: Edge(p.edges, c, f) && Placed(p, base, c) && EndOf(p, base, c) == e
  }

  /** A frame keeps its bank selects, at its start and at its end, when moved from `e` to `a`. */
  ghost predicate KeepsSelects(d: Device, widths: seq<nat>, a: nat, e: nat) {
    && SameSelect(d, a, e)
    && FrameEnd(d, a, widths).Some? && FrameEnd(d, e, widths).Some?
    && SameSelect(d, FrameEnd(d, a, widths).value, FrameEnd(d, e, widths).value)
  }

  /** Where `f` goes before rounding: without callers the region start; else the highest caller
      end, or, with the dip on and no homed arguments, the least clear address when the frame keeps
      its bank selects there. */
  ghost predicate Unrounded(p: Program, base: map<nat, nat>, f: nat, dip: bool, start: nat, u: nat)
    requires Valid(p) && f < |p.funcs|
  {
    if p.callers[f] == [] then u == start
    else exists a: nat, e: nat ::
      LeastClear(p, base, f, a) && HighestCallerEnd(p, base, f, e)
      && u == if dip && !p.funcs[f].homed && KeepsSelects(p.d, p.funcs[f].widths, a, e) then a else e
  }

  /** The rule bases `f` at `b`: a runtime routine is snapped into one bank. */
  ghost predicate RuledTo(p: Program, base: map<nat, nat>, f: nat, dip: bool, start: nat, b: nat)
    requires Valid(p) && f < |p.funcs|
  {
    exists u: nat :: Unrounded(p, base, f, dip, start, u)
      && if p.funcs[f].routine && !p.d.core.PicBaseline? then SnappedBase(p.d, u, p.funcs[f].widths) == Some(b)
         else b == u
  }

  /** The base of `f` is the one the rule gives. */
  ghost predicate Ruled(p: Program, base: map<nat, nat>, f: nat, dip: bool, start: nat)
    requires Valid(p) && f < |p.funcs| && f in base
  {
    RuledTo(p, base, f, dip, start, base[f])
  }

  lemma KeyIsSelect(d: Device, a: nat, b: nat)
    requires d.Valid()
    ensures BankKey(d, a) == BankKey(d, b) <==> SameSelect(d, a, b)
  {
    if !d.core.Pic18? {
      RegionKey(d, a, b);
    }
  }

  lemma RegionKey(d: Device, a: nat, b: nat)
    requires d.Valid()
    ensures d.RegionIndex(a) == d.RegionIndex(b) <==>
      forall i :: 0 <= i < |d.banks| ==> (a <= d.banks[i].hi <==> b <= d.banks[i].hi)
  {
    var ra, rb := d.RegionIndex(a), d.RegionIndex(b);
    if ra == rb {
      forall i | 0 <= i < |d.banks| ensures a <= d.banks[i].hi <==> b <= d.banks[i].hi {
        if ra.Some? && ra.value < i { assert d.banks[ra.value].hi < d.banks[i].lo; }
      }
    }
  }

  lemma LiveHighLeast(d: Device, base: nat, fr: FuncFrame, s: Site, b: nat)
    requires d.Valid() && ValidFrame(fr) && FrameEnd(d, base, fr.widths).Some? && ClearOf(d, base, fr, s, b)
    ensures LiveHighAt(d, base, fr, s).Some? && LiveHighAt(d, base, fr, s).value <= b
  {
    LiveHighLow(d, base, fr, s);
    var top := TopLive(fr, s, |fr.widths|);
    if top.Some? {
      TopLiveHolds(fr, s, |fr.widths|);
      PrefixEnd(d, base, fr.widths, top.value);
      var v :| LiveAcross(fr, s, v) && fr.live[v].slot == top.value;
    }
  }

  lemma {:induction false} TopLiveHolds(fr: FuncFrame, s: Site, n: nat)
    ensures TopLive(fr, s, n).Some? ==> HoldsLive(fr, s, TopLive(fr, s, n).value)
  {
    if n > 0 { TopLiveHolds(fr, s, n - 1); }
  }

  /** The greatest live-high over the sites is the least address clear of all of them. */
  lemma DipIsLeast(p: Program, base: map<nat, nat>, f: nat)
    requires Valid(p) && f < |p.funcs| && CallersPlaced(p, base, f) && SitesCover(p, f) && p.callers[f] != []
    ensures p.sites[f] != [] && SitesHigh(p, base, f, |p.sites[f]|).Some?
    ensures LeastClear(p, base, f, SitesHigh(p, base, f, |p.sites[f]|).value)
  {
    hide SitesHigh, ValidFrame, FrameEnd, LiveHighAt, ClearOf, IsTopological;
    CallerIsEdge(p, f, 0);
    DipIsClear(p, base, f);
    var d := SitesHigh(p, base, f, |p.sites[f]|).value;
    forall c: nat | Edge(p.edges, c, f) ensures Placed(p, base, c) && base[c] <= d {
      SiteOver(p, base, f, c, d);
    }
    forall b: nat | ClearOfSites(p, base, f, b) ensures d <= b {
      DipBelow(p, base, f, d, b);
    }
  }

  lemma DipBelow(p: Program, base: map<nat, nat>, f: nat, d: nat, b: nat)
    requires Valid(p) && f < |p.funcs| && ClearOfSites(p, base, f, b)
    requires exists k :: 0 <= k < |p.sites[f]| && SiteHigh(p, base, p.sites[f][k]) == Some(d)
    ensures d <= b
  {
    hide FrameEnd, LiveHighAt, ClearOf, IsTopological;
    var k :| 0 <= k < |p.sites[f]| && SiteHigh(p, base, p.sites[f][k]) == Some(d);
    var s := p.sites[f][k];
    assert Edge(p.edges, s.caller, f);
    LiveHighLeast(p.d, base[s.caller], p.funcs[s.caller], s, b);
  }

  lemma CallerIsEdge(p: Program, f: nat, k: nat)
    requires Valid(p) && f < |p.funcs| && k < |p.callers[f]|
    ensures Edge(p.edges, p.callers[f][k], f)
  {
    assert Edge(p.callers, f, p.callers[f][k]);
  }

  lemma SiteOver(p: Program, base: map<nat, nat>, f: nat, c: nat, d: nat)
    requires Valid(p) && f < |p.funcs| && CallersPlaced(p, base, f) && SitesCover(p, f) && Edge(p.edges, c, f)
    requires forall k :: 0 <= k < |p.sites[f]| ==>
      && Placed(p, base, p.sites[f][k].caller)
      && ClearOf(p.d, base[p.sites[f][k].caller], p.funcs[p.sites[f][k].caller], p.sites[f][k], d)
    ensures base[c] <= d
  {
    hide ValidFrame, IsTopological;
    var k :| 0 <= k < |p.sites[f]| && p.sites[f][k].caller == c;
  }

  /** What `BaseOf` gives is what the rule gives. */
  lemma BaseIsRuled(p: Program, base: map<nat, nat>, f: nat, dip: bool, start: nat)
    requires Valid(p) && f < |p.funcs| && CallersPlaced(p, base, f) && SitesCover(p, f)
    requires BaseOf(p, base, f, dip, start).Some?
    ensures RuledTo(p, base, f, dip, start, BaseOf(p, base, f, dip, start).value)
  {
    hide Unrounded, KeptBase, SnappedBase, Valid;
    SameSizes(p);
    var u := KeptBase(p, base, f, dip, start).value;
    KeptIsRuled(p, base, f, dip, start);
  }

  lemma KeptIsRuled(p: Program, base: map<nat, nat>, f: nat, dip: bool, start: nat)
    requires Valid(p) && f < |p.funcs| && CallersPlaced(p, base, f) && SitesCover(p, f)
    requires KeptBase(p, base, f, dip, start).Some?
    ensures Unrounded(p, base, f, dip, start, KeptBase(p, base, f, dip, start).value)
  {
    hide Valid, EndRule, SitesHigh, LeastClear, HighestCallerEnd, CallersPlaced, SitesCover, KeepsBanks, KeepsSelects,
      Unrounded;
    SameSizes(p);
    if p.callers[f] != [] {
      DipIsLeast(p, base, f);
      EndIsHighest(p, base, f, start);
      var a, e := SitesHigh(p, base, f, |p.sites[f]|).value, EndRule(p, base, f, start).value;
      SelectsKept(p, p.funcs[f].widths, a, e);
      ChoiceIsRuled(p, base, f, dip, start, a, e);
    } else {
      NoCallersKept(p, base, f, dip, start);
    }
  }

  lemma NoCallersKept(p: Program, base: map<nat, nat>, f: nat, dip: bool, start: nat)
    requires Valid(p) && f < |p.funcs| && p.callers[f] == []
    ensures KeptBase(p, base, f, dip, start) == Some(start) && Unrounded(p, base, f, dip, start, start)
  {
    NoCallersNoSites(p, f);
  }

  lemma ChoiceIsRuled(p: Program, base: map<nat, nat>, f: nat, dip: bool, start: nat, a: nat, e: nat)
    requires Valid(p) && f < |p.funcs| && p.callers[f] != []
    requires LeastClear(p, base, f, a) && HighestCallerEnd(p, base, f, e)
    ensures Unrounded(p, base, f, dip, start,
              if dip && !p.funcs[f].homed && KeepsSelects(p.d, p.funcs[f].widths, a, e) then a else e)
  {
    hide LeastClear, HighestCallerEnd, KeepsSelects, ValidFrame, IsTopological;
  }

  lemma SameSizes(p: Program)
    requires Valid(p)
    ensures |p.funcs| == |p.callers| == |p.sites|
  {
  }

  lemma EndIsHighest(p: Program, base: map<nat, nat>, f: nat, start: nat)
    requires Valid(p) && f < |p.funcs| && CallersPlaced(p, base, f) && p.callers[f] != []
    ensures EndRule(p, base, f, start).Some? && HighestCallerEnd(p, base, f, EndRule(p, base, f, start).value)
  {
    EndRuleIs(p, base, f, start);
  }

  lemma SelectsKept(p: Program, widths: seq<nat>, a: nat, e: nat)
    requires Valid(p)
    ensures KeepsBanks(p.d, widths, a, e).Some? ==>
      (KeepsBanks(p.d, widths, a, e).value <==> KeepsSelects(p.d, widths, a, e))
  {
    hide BankKey, SameSelect;
    KeyIsSelect(p.d, a, e);
    var ea, ee := FrameEnd(p.d, a, widths), FrameEnd(p.d, e, widths);
    if ea.Some? && ee.Some? { KeyIsSelect(p.d, ea.value, ee.value); }
  }

  /** The rule picks one address. */
  lemma UnroundedOne(p: Program, base: map<nat, nat>, f: nat, dip: bool, start: nat, u: nat, w: nat)
    requires Valid(p) && f < |p.funcs|
    requires Unrounded(p, base, f, dip, start, u) && Unrounded(p, base, f, dip, start, w)
    ensures u == w
  {
    hide ClearOfSites, KeepsSelects, HighestCallerEnd, Edge, ValidFrame;
    if p.callers[f] != [] {
      var a: nat, e: nat :| LeastClear(p, base, f, a) && HighestCallerEnd(p, base, f, e)
        && u == if dip && !p.funcs[f].homed && KeepsSelects(p.d, p.funcs[f].widths, a, e) then a else e;
      var b: nat, h: nat :| LeastClear(p, base, f, b) && HighestCallerEnd(p, base, f, h)
        && w == if dip && !p.funcs[f].homed && KeepsSelects(p.d, p.funcs[f].widths, b, h) then b else h;
      HighestOne(p, base, f, e, h);
      HighestOne(p, base, f, h, e);
    }
  }

  lemma HighestOne(p: Program, base: map<nat, nat>, f: nat, e: nat, h: nat)
    requires HighestCallerEnd(p, base, f, e) && HighestCallerEnd(p, base, f, h)
    ensures e <= h
  {
    hide FrameEnd;
  }

  // ---- All functions -----------------------------------------------------------------

  /** Every function is placed, at or above its callers and clear of their live bytes. */
  ghost predicate Settled(p: Program, base: map<nat, nat>)
    requires Valid(p)
  {
    forall f: nat :: f < |p.funcs| ==> Placed(p, base, f) && AboveCallers(p, base, f, base[f])
  }

  /** The functions of `topo[..k]` are settled. */
  ghost predicate SettledUpTo(p: Program, base: map<nat, nat>, k: nat)
    requires Valid(p) && k <= |p.topo|
  {
    forall j :: 0 <= j < k ==> Placed(p, base, p.topo[j]) && AboveCallers(p, base, p.topo[j], base[p.topo[j]])
  }

  lemma CallersAreEarlier(p: Program, k: nat, c: nat)
    requires Valid(p) && k < |p.topo| && Edge(p.edges, c, p.topo[k])
    ensures exists j :: 0 <= j < k && p.topo[j] == c
  {
    assert c in p.topo;
    var j :| 0 <= j < |p.topo| && p.topo[j] == c;
    assert forall i :: k < i < |p.topo| ==> !Edge(p.edges, p.topo[i], p.topo[k]);
  }

  /** Placing `topo[k]` disturbs nothing settled before it. */
  lemma PlaceNext(p: Program, base: map<nat, nat>, k: nat, b: nat)
    requires Valid(p) && k < |p.topo| && SettledUpTo(p, base, k)
    requires AboveCallers(p, base, p.topo[k], b) && FrameEnd(p.d, b, p.funcs[p.topo[k]].widths).Some?
    ensures SettledUpTo(p, base[p.topo[k] := b], k + 1)
  {
    var f := p.topo[k];
    var base' := base[f := b];
    forall j | 0 <= j <= k
      ensures Placed(p, base', p.topo[j]) && AboveCallers(p, base', p.topo[j], base'[p.topo[j]])
    {
      var h := p.topo[j];
      forall c: nat | Edge(p.edges, c, h) ensures c != f {
        CallersAreEarlier(p, j, c);
      }
      assert AboveCallers(p, base, h, base'[h]);
      forall i | 0 <= i < |p.sites[h]| ensures p.sites[h][i].caller != f {
        assert Edge(p.edges, p.sites[h][i].caller, h);
      }
    }
  }

  lemma SettledCallers(p: Program, base: map<nat, nat>, k: nat)
    requires Valid(p) && k < |p.topo| && SettledUpTo(p, base, k)
    ensures CallersPlaced(p, base, p.topo[k])
  {
    forall c: nat | Edge(p.edges, c, p.topo[k]) ensures Placed(p, base, c) {
      CallersAreEarlier(p, k, c);
    }
  }

  /** One turn of a pass: `topo[k]` gets its base. */
  method PlaceOne(p: Program, base: map<nat, nat>, k: nat, dip: bool, start: nat) returns (r: Option<map<nat, nat>>)
    requires Valid(p) && (forall f :: 0 <= f < |p.funcs| ==> SitesCover(p, f))
    requires k < |p.topo| && SettledUpTo(p, base, k) && (p.dip == Off ==> !dip)
    ensures r == WithPlaced(p, base, p.topo[k], dip, start)
    ensures r.None? <==> Stuck(p, base, p.topo[k], dip, start)
    ensures r.Some? ==> SettledUpTo(p, r.value, k + 1)
    ensures r.Some? ==>
      var f := p.topo[k];
      && f in r.value && r.value == base[f := r.value[f]]
      && (p.callers[f] == [] ==> r.value[f] >= start && (!p.funcs[f].routine ==> r.value[f] == start))
  {
    var f := p.topo[k];
    SettledCallers(p, base, k);
    StuckIs(p, base, f, dip, start);
    hide Stuck, BaseOf, SettledUpTo;
    var b := BaseFor(p, base, f, dip, start);
    if b.None? { return None; }
    var e := ComputeFrameEnd(p.d, b.value, p.funcs[f].widths);
    if e.None? { return None; }
    PlaceNext(p, base, k, b.value);
    r := Some(base[f := b.value]);
  }

  /** The main pass over the topological order. `None`: some function has no place. */
  method AssignMain(p: Program, start: nat) returns (r: Option<map<nat, nat>>)
    requires Valid(p) && forall f :: 0 <= f < |p.funcs| ==> SitesCover(p, f)
    ensures r == MainBases(p, start)
    ensures r.Some? ==> Settled(p, r.value)
    ensures r.Some? ==> forall f: nat :: f < |p.funcs| ==> f in r.value && Ruled(p, r.value, f, p.dip == All, start)
    ensures r.None? <==> exists k :: 0 <= k < |p.topo| && MainStuckAt(p, start, k)
    ensures r.Some? ==> forall f: nat :: f < |p.funcs| && p.callers[f] == [] ==>
              f in r.value && r.value[f] >= start && (!p.funcs[f].routine ==> r.value[f] == start)
  {
    var base: map<nat, nat> := map[];
    hide Stuck, WithPlaced, AboveCallers, ValidFrame, Transposed, Closed, Ruled, SitesCover;
    for k := 0 to |p.topo|
      invariant SettledUpTo(p, base, k) && MainUpTo(p, start, k) == Some(base)
      invariant forall j :: 0 <= j < k ==> !MainStuckAt(p, start, j)
      invariant forall j :: 0 <= j < k && p.callers[p.topo[j]] == [] ==>
                  base[p.topo[j]] >= start && (!p.funcs[p.topo[j]].routine ==> base[p.topo[j]] == start)
    {
      var next := PlaceOne(p, base, k, p.dip == All, start);
      assert next.None? <==> MainStuckAt(p, start, k);
      if next.None? {
        MainStuck(p, start, k);
        return None;
      }
      base := next.value;
    }
    AllSettled(p, base);
    MainRuled(p, start, base);
    forall f: nat | f < |p.funcs| && p.callers[f] == []
      ensures f in base && base[f] >= start && (!p.funcs[f].routine ==> base[f] == start)
    {
      assert f in p.topo;
      var j :| 0 <= j < |p.topo| && p.topo[j] == f;
    }
    r := Some(base);
  }

  /** The pass gets as far as `topo[k]`, which has no place. */
  ghost predicate MainStuckAt(p: Program, start: nat, k: nat)
    requires Valid(p) && k < |p.topo|
  {
    && MainUpTo(p, start, k).Some?
    && Stuck(p, MainUpTo(p, start, k).value, p.topo[k], p.dip == All, start)
  }

  /** The bases agree on `c`. */
  predicate SameAt(b1: map<nat, nat>, b2: map<nat, nat>, c: nat) {
    (c in b1 <==> c in b2) && (c in b1 ==> b1[c] == b2[c])
  }

  ghost predicate SameCallers(p: Program, b1: map<nat, nat>, b2: map<nat, nat>, f: nat) {
    forall c: nat :: Edge(p.edges, c, f) ==> SameAt(b1, b2, c)
  }

  lemma {:induction false} SameEnds(p: Program, b1: map<nat, nat>, b2: map<nat, nat>, f: nat, n: nat)
    requires Valid(p) && f < |p.funcs| && n <= |p.callers[f]| && SameCallers(p, b1, b2, f)
    ensures CallersEnd(p, b1, f, n) == CallersEnd(p, b2, f, n)
  {
    if n > 0 {
      SameEnds(p, b1, b2, f, n - 1);
      CallerIsEdge(p, f, n - 1);
    }
  }

  lemma {:induction false} SameSites(p: Program, b1: map<nat, nat>, b2: map<nat, nat>, f: nat, n: nat)
    requires Valid(p) && f < |p.funcs| && n <= |p.sites[f]| && SameCallers(p, b1, b2, f)
    ensures SitesHigh(p, b1, f, n) == SitesHigh(p, b2, f, n)
  {
    if n > 0 {
      SameSites(p, b1, b2, f, n - 1);
      assert Edge(p.edges, p.sites[f][n - 1].caller, f);
    }
  }

  /** The base of a function depends on its callers' bases only. */
  lemma SameBase(p: Program, b1: map<nat, nat>, b2: map<nat, nat>, f: nat, dip: bool, start: nat)
    requires Valid(p) && f < |p.funcs| && SameCallers(p, b1, b2, f)
    ensures BaseOf(p, b1, f, dip, start) == BaseOf(p, b2, f, dip, start)
  {
    SameEnds(p, b1, b2, f, |p.callers[f]|);
    SameSites(p, b1, b2, f, |p.sites[f]|);
  }

  /** `topo[k]` is listed once, and calls neither itself nor anything listed before it. */
  lemma TopoFacts(p: Program, k: nat)
    requires Valid(p) && k < |p.topo|
    ensures |p.funcs| == |p.callers| == |p.sites| && p.topo[k] < |p.funcs|
    ensures forall j :: 0 <= j < k ==> p.topo[j] != p.topo[k] && p.topo[j] < |p.funcs|
    ensures forall j :: 0 <= j <= k ==> !Edge(p.edges, p.topo[k], p.topo[j])
  {
  }

  /** The bases the main pass ends with are the ones the rules give from those very bases. */
  lemma {:induction false} MainFixed(p: Program, start: nat, k: nat, j: nat)
    requires Valid(p) && j < k <= |p.topo| && MainUpTo(p, start, k).Some?
    ensures var base := MainUpTo(p, start, k).value; var f := p.topo[j];
            f in base && BaseOf(p, base, f, p.dip == All, start) == Some(base[f])
  {
    TopoFacts(p, k - 1);
    hide Valid, BaseOf;
    var f, g := p.topo[j], p.topo[k - 1];
    var before := MainUpTo(p, start, k - 1).value;
    var base := MainUpTo(p, start, k).value;
    if j < k - 1 { MainFixed(p, start, k - 1, j); }
    assert SameCallers(p, before, base, f);
    SameBase(p, before, base, f, p.dip == All, start);
  }

  lemma MainRuled(p: Program, start: nat, base: map<nat, nat>)
    requires Valid(p) && MainBases(p, start) == Some(base) && Settled(p, base)
    requires forall f :: 0 <= f < |p.funcs| ==> SitesCover(p, f)
    ensures forall f: nat :: f < |p.funcs| ==> f in base && Ruled(p, base, f, p.dip == All, start)
  {
    forall f: nat | f < |p.funcs| ensures f in base && Ruled(p, base, f, p.dip == All, start) {
      var j := IndexOf(p, f);
      MainFixed(p, start, |p.topo|, j);
      SettledHas(p, base, f);
      hide Valid, Settled, BaseOf, Ruled, SitesCover;
      BaseIsRuled(p, base, f, p.dip == All, start);
    }
  }

  lemma SettledHas(p: Program, base: map<nat, nat>, f: nat)
    requires Valid(p) && Settled(p, base) && f < |p.funcs|
    ensures f in base && CallersPlaced(p, base, f)
  {
    assert AboveCallers(p, base, f, base[f]);
  }

  lemma IndexOf(p: Program, f: nat) returns (j: nat)
    requires Valid(p) && f < |p.funcs|
    ensures j < |p.topo| && p.topo[j] == f
  {
    assert f in p.topo;
    j :| 0 <= j < |p.topo| && p.topo[j] == f;
  }

  /** Once stuck, the pass has no result; until then it has one. */
  lemma {:induction false} MainStays(p: Program, start: nat, j: nat, k: nat)
    requires Valid(p) && j <= k <= |p.topo| && MainUpTo(p, start, k).Some?
    ensures MainUpTo(p, start, j).Some?
  {
    hide Valid, WithPlaced;
    if j < k { MainStays(p, start, j, k - 1); }
  }

  lemma MainStuck(p: Program, start: nat, k: nat)
    requires Valid(p) && k < |p.topo| && MainUpTo(p, start, k + 1).None?
    ensures MainBases(p, start).None?
  {
    hide Valid, WithPlaced;
    if MainBases(p, start).Some? { MainStays(p, start, k + 1, |p.topo|); }
  }

  lemma AllSettled(p: Program, base: map<nat, nat>)
    requires Valid(p) && SettledUpTo(p, base, |p.topo|)
    ensures Settled(p, base)
  {
    forall f: nat | f < |p.funcs| ensures Placed(p, base, f) && AboveCallers(p, base, f, base[f]) {
      assert f in p.topo;
      var j :| 0 <= j < |p.topo| && p.topo[j] == f;
    }
  }
}
