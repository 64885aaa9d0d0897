/** The const-window repair: one forward walk that pads a table which would cross its window,
    checked against the assembler's own walk of the repaired text: no table crosses, every
    label stands where the repair recorded it. */
module ConstWindow {
  import opened Wrappers
  import opened FirstPass
  import Stream

  const PAGE := 0x800

  predicate IsReader(name: string) {
    "__read_" <= name
  }

  // ---- The text with pads ------------------------------------------------------------

  /** The first `i` source lines, each line of `pads` behind an `.align 256`. */
  function Weave(src: seq<Line>, pads: set<nat>, i: nat): seq<Line>
    requires i <= |src|
  {
    if i == 0 then []
    else Weave(src, pads, i - 1) + (if i - 1 in pads then [Align(256)] else []) + [src[i - 1]]
  }

  function WeaveLocs(locs: seq<Option<nat>>, pads: set<nat>, i: nat): seq<Option<nat>>
    requires i <= |locs|
  {
    if i == 0 then []
    else WeaveLocs(locs, pads, i - 1) + (if i - 1 in pads then [None] else []) + [locs[i - 1]]
  }

  /** Line `i` is a table that would cross at the address it has so far. */
  predicate Crosses(src: seq<Line>, pads: set<nat>, i: nat)
    requires i < |src|
  {
    var w := After(Weave(src, pads, i));
    !w.ended && src[i].Table? && !TableFits(w.org, src[i].size)
  }

  /** Pads stand exactly where a table would cross. */
  ghost predicate PadsExact(src: seq<Line>, pads: set<nat>, n: nat)
    requires n <= |src|
  {
    && (forall i <- pads :: i < n)
    && (forall i: nat :: i < n ==> (i in pads <==> Crosses(src, pads, i)))
  }

  lemma {:induction false} WeaveSame(src: seq<Line>, pads: set<nat>, pads': set<nat>, i: nat)
    requires i <= |src| && forall k: nat :: k < i ==> (k in pads <==> k in pads')
    ensures Weave(src, pads, i) == Weave(src, pads', i)
  {
    if i > 0 { WeaveSame(src, pads, pads', i - 1); }
  }

  lemma {:induction false} WeaveLocsSame(locs: seq<Option<nat>>, pads: set<nat>, pads': set<nat>, i: nat)
    requires i <= |locs| && forall k: nat :: k < i ==> (k in pads <==> k in pads')
    ensures WeaveLocs(locs, pads, i) == WeaveLocs(locs, pads', i)
  {
    if i > 0 { WeaveLocsSame(locs, pads, pads', i - 1); }
  }

  lemma {:induction false} WeaveNone(src: seq<Line>, i: nat)
    requires i <= |src|
    ensures Weave(src, {}, i) == src[..i]
  {
    if i > 0 {
      WeaveNone(src, i - 1);
      assert src[..i] == src[..i - 1] + [src[i - 1]];
    }
  }

  lemma {:induction false} WeaveLocsNone(locs: seq<Option<nat>>, i: nat)
    requires i <= |locs|
    ensures WeaveLocs(locs, {}, i) == locs[..i]
  {
    if i > 0 {
      WeaveLocsNone(locs, i - 1);
      assert locs[..i] == locs[..i - 1] + [locs[i - 1]];
    }
  }

  // ---- Label addresses ---------------------------------------------------------------

  /** Every label's word address, the last definition winning. */
  function Bases(ls: seq<Line>): map<string, nat> {
    if ls == [] then map[]
    else
      var n := |ls| - 1;
      var w := After(ls[..n]);
      if ls[n].Label? && !w.ended then Bases(ls[..n])[ls[n].name := w.org] else Bases(ls[..n])
  }

  ghost predicate NoEqu(ls: seq<Line>, name: string) {
    forall k :: 0 <= k < |ls| && ls[k].Equ? ==> ls[k].name != name
  }

  lemma BasesSnoc(ls: seq<Line>, l: Line)
    ensures Bases(ls + [l])
         == if l.Label? && !After(ls).ended then Bases(ls)[l.name := After(ls).org] else Bases(ls)
  {
    assert (ls + [l])[..|ls|] == ls;
  }

  /** The assembler resolves each label to the address the repair recorded for it. */
  lemma {:induction false} SymbolsMatch(ls: seq<Line>, name: string)
    requires NoEqu(ls, name) && name in Bases(ls)
    ensures var n := Stream.User(name); n in After(ls).symbols && After(ls).symbols[n] == Bases(ls)[name]
    decreases |ls|
  {
    if ls != [] {
      var n := |ls| - 1;
      var w := After(ls[..n]);
      assert NoEqu(ls[..n], name);
      assert ls[n].Equ? ==> ls[n].name != name;
      if name in Bases(ls[..n]) {
        SymbolsMatch(ls[..n], name);
      }
    }
  }

  // ---- Reader extents ----------------------------------------------------------------

  predicate Closes(l: Line) {
    l.Label? || l.Org? || l.End? || l.Table?
  }

  predicate ReaderAt(ls: seq<Line>, j: nat)
    requires j < |ls|
  {
    ls[j].Label? && IsReader(ls[j].name) && !After(ls[..j]).ended
  }

  /** The line that closes an extent opened before `k`, or the end of the text. */
  function CloseFrom(ls: seq<Line>, k: nat): (r: nat)
    requires k <= |ls|
    ensures k <= r <= |ls| && (r < |ls| ==> Closes(ls[r]))
    ensures forall c :: k <= c < r ==> !Closes(ls[c])
    decreases |ls| - k
  {
    if k == |ls| || Closes(ls[k]) then k else CloseFrom(ls, k + 1)
  }

  predicate OnePage(start: nat, end: nat) {
    end > start ==> start / PAGE == (end - 1) / PAGE
  }

  predicate IsWord(l: Line) {
    l.Instr? || (l.Label? && l.instr)
  }

  /** Every word of the reader opened at line `j` is in its label's page. */
  ghost predicate ReaderFits(ls: seq<Line>, j: nat)
    requires j < |ls|
  {
    ReaderAt(ls, j) ==>
      forall k: nat :: j <= k < CloseFrom(ls, j + 1) && IsWord(ls[k]) ==> AddrAt(ls, k) / 2048 == AddrAt(ls, j) / 2048
  }

  /** No line of `(j, k]` is a label, an `org`, the end or a table. */
  ghost predicate RunsOn(ls: seq<Line>, j: nat, k: nat)
    requires k < |ls|
  {
    forall c :: j < c <= k ==> !ls[c].Label? && !ls[c].Org? && !ls[c].End? && !ls[c].Table?
  }

  /** The words of a reader are the ones that run on from its label. */
  lemma ReaderFitsIs(ls: seq<Line>, j: nat)
    requires j < |ls|
    ensures ReaderFits(ls, j) <==>
      (ReaderAt(ls, j) ==> forall k: nat :: j <= k < |ls| && IsWord(ls[k]) && RunsOn(ls, j, k) ==>
         AddrAt(ls, k) / 2048 == AddrAt(ls, j) / 2048)
  {
    hide AddrAt;
    var end := CloseFrom(ls, j + 1);
    forall k: nat | j <= k < |ls| ensures k < end <==> RunsOn(ls, j, k) {
      if k >= end { assert Closes(ls[end]); }
    }
  }

  ghost predicate PagesOk(bases: map<string, nat>, pages: seq<(string, nat)>) {
    forall k :: 0 <= k < |pages| ==> pages[k].0 in bases && bases[pages[k].0] / PAGE == pages[k].1
  }

  /** The words from line `j` on lie in `[lo, hi)`. */
  ghost predicate WordsIn(ls: seq<Line>, j: nat, lo: nat, hi: nat) {
    lo <= hi && forall k: nat :: j <= k < |ls| && IsWord(ls[k]) ==> lo <= AddrAt(ls, k) < hi
  }

  /** What is known of the reader opened at line `j`: closed and, behind the first pad, inside
      its page; or still open, its words so far below `hi`. */
  ghost predicate ReaderOk(ls: seq<Line>, j: nat, reader: Option<nat>, hi: nat, padded: bool, since: nat)
    requires j < |ls|
  {
    if CloseFrom(ls, j + 1) < |ls| then padded && since < j ==> ReaderFits(ls, j)
    else reader == Some(AddrAt(ls, j)) && WordsIn(ls, j, AddrAt(ls, j), hi)
  }

  ghost predicate Readers(ls: seq<Line>, reader: Option<nat>, hi: nat, padded: bool, since: nat) {
    forall j: nat :: j < |ls| && ReaderAt(ls, j) ==> ReaderOk(ls, j, reader, hi, padded, since)
  }

  lemma {:induction false} CloseSnoc(ls: seq<Line>, l: Line, k: nat)
    requires k <= |ls|
    ensures CloseFrom(ls + [l], k)
         == if CloseFrom(ls, k) < |ls| || Closes(l) then CloseFrom(ls, k) else |ls| + 1
    decreases |ls| - k
  {
    if k < |ls| { CloseSnoc(ls, l, k + 1); }
  }

  lemma AddrSnoc(ls: seq<Line>, l: Line, k: nat)
    requires k <= |ls|
    ensures AddrAt(ls + [l], k) == AddrAt(ls, k)
  {
    assert (ls + [l])[..k] == ls[..k];
  }

  lemma ReaderSnoc(ls: seq<Line>, l: Line, j: nat)
    requires j < |ls|
    ensures ReaderAt(ls + [l], j) <==> ReaderAt(ls, j)
  {
    assert (ls + [l])[..j] == ls[..j];
  }

  /** A line that closes nothing. */
  lemma ReadersOn(ls: seq<Line>, l: Line, reader: Option<nat>, hi: nat, hi': nat, padded: bool, since: nat)
    requires Readers(ls, reader, hi, padded, since) && !Closes(l)
    requires hi <= hi' && (IsWord(l) ==> hi <= After(ls).org < hi')
    ensures Readers(ls + [l], reader, hi', padded, since)
  {
    var ls' := ls + [l];
    forall j: nat | j < |ls'| && ReaderAt(ls', j) ensures ReaderOk(ls', j, reader, hi', padded, since) {
      ReaderSnoc(ls, l, j);
      CloseSnoc(ls, l, j + 1);
      AddrSnoc(ls, l, j);
      assert ReaderOk(ls, j, reader, hi, padded, since);
      if CloseFrom(ls, j + 1) < |ls| {
        FitsSnoc(ls, l, j);
      } else {
        WordsSnoc(ls, l, j, AddrAt(ls, j), hi, hi');
      }
    }
  }

  lemma FitsSnoc(ls: seq<Line>, l: Line, j: nat)
    requires j < |ls| && CloseFrom(ls, j + 1) < |ls|
    ensures ReaderFits(ls + [l], j) <==> ReaderFits(ls, j)
  {
    ReaderSnoc(ls, l, j);
    CloseSnoc(ls, l, j + 1);
    forall k: nat | k < |ls| ensures AddrAt(ls + [l], k) == AddrAt(ls, k) { AddrSnoc(ls, l, k); }
  }

  lemma WordsSnoc(ls: seq<Line>, l: Line, j: nat, lo: nat, hi: nat, hi': nat)
    requires WordsIn(ls, j, lo, hi) && hi <= hi' && (IsWord(l) ==> hi <= After(ls).org < hi')
    ensures WordsIn(ls + [l], j, lo, hi')
  {
    var ls' := ls + [l];
    forall k: nat | j <= k < |ls'| && IsWord(ls'[k]) ensures lo <= AddrAt(ls', k) < hi' {
      AddrSnoc(ls, l, k);
      assert ls[..|ls|] == ls;
    }
  }

  /** A closing line, once the open reader is checked; it may open the next one. */
  lemma ReadersClose(ls: seq<Line>, l: Line, reader: Option<nat>, hi: nat, padded: bool, since: nat,
                     reader': Option<nat>)
    requires Readers(ls, reader, hi, padded, since) && Closes(l)
    requires reader.Some? && padded ==> OnePage(reader.value, hi)
    requires ReaderAt(ls + [l], |ls|) ==> reader' == Some(After(ls).org)
    ensures Readers(ls + [l], reader', Step(After(ls), l).org, padded, since)
  {
    hide ReaderFits, Step, OnePage, After;
    var ls' := ls + [l];
    forall j: nat | j < |ls'| && ReaderAt(ls', j)
      ensures ReaderOk(ls', j, reader', Step(After(ls), l).org, padded, since)
    {
      if j < |ls| {
        ReaderSnoc(ls, l, j);
        CloseSnoc(ls, l, j + 1);
        assert ReaderOk(ls, j, reader, hi, padded, since);
        if CloseFrom(ls, j + 1) < |ls| {
          FitsSnoc(ls, l, j);
        } else if padded {
          ClosedFits(ls, l, j, hi);
        }
      } else {
        OpenedOk(ls, l);
      }
    }
  }

  lemma OpenedOk(ls: seq<Line>, l: Line)
    requires ReaderAt(ls + [l], |ls|)
    ensures CloseFrom(ls + [l], |ls| + 1) == |ls| + 1 && AddrAt(ls + [l], |ls|) == After(ls).org
    ensures WordsIn(ls + [l], |ls|, After(ls).org, Step(After(ls), l).org)
  {
    AddrSnoc(ls, l, |ls|);
    assert ls[..|ls|] == ls && (ls + [l])[..|ls|] == ls;
  }

  lemma ClosedFits(ls: seq<Line>, l: Line, j: nat, hi: nat)
    requires j < |ls| && Closes(l) && CloseFrom(ls, j + 1) == |ls|
    requires WordsIn(ls, j, AddrAt(ls, j), hi) && OnePage(AddrAt(ls, j), hi)
    ensures ReaderFits(ls + [l], j)
  {
    CloseSnoc(ls, l, j + 1);
    var ls' := ls + [l];
    AddrSnoc(ls, l, j);
    forall k: nat | j <= k < |ls| && IsWord(ls'[k]) ensures AddrAt(ls', k) / PAGE == AddrAt(ls', j) / PAGE {
      AddrSnoc(ls, l, k);
      SamePage(AddrAt(ls, j), AddrAt(ls, k), hi);
    }
  }

  lemma SamePage(lo: nat, a: nat, hi: nat)
    requires lo <= a < hi && OnePage(lo, hi)
    ensures a / PAGE == lo / PAGE
  {
  }

  lemma {:induction false} AndNotGrows(a: nat, b: nat)
    ensures a - b <= AndNot(a, b) <= a
    decreases a
  {
    if a > 0 { AndNotGrows(a / 2, b / 2); }
  }

  lemma AlignGrows(org: nat, n: nat)
    requires n > 0
    ensures org <= AlignUp(org, n)
  {
    AndNotGrows(org + n - 1, n - 1);
  }

  // ---- The repair --------------------------------------------------------------------

  type Text = (seq<Line>, seq<Option<nat>>)

  ghost predicate Fits(src: seq<Line>) {
    After(src).faults == {}
  }

  /** Everything the repair promises of its result. */
  ghost predicate Repaired(src: seq<Line>, locs: seq<Option<nat>>, pages: seq<(string, nat)>, pads: set<nat>, t: Text)
    requires |locs| == |src|
  {
    && t.0 == Weave(src, pads, |src|) && t.1 == WeaveLocs(locs, pads, |src|)
    && PadsExact(src, pads, |src|)
    && After(t.0).faults <= {BadAlign}
    && PagesOk(Bases(t.0), pages)
    && (forall i: nat, j: nat :: i in pads && i < |src| && |Weave(src, pads, i)| < j < |t.0| ==> ReaderFits(t.0, j))
  }

  // ---- What is refused ---------------------------------------------------------------

  /** The pads in front of line `i`. */
  function PadsOf(src: seq<Line>, i: nat): set<nat>
    requires i <= |src|
  {
    if i == 0 then {}
    else
      var pads := PadsOf(src, i - 1);
      if Crosses(src, pads, i - 1) then pads + {i - 1} else pads
  }

  /** Where the reader still open at the end of `ls` starts. */
  function OpenReader(ls: seq<Line>): Option<nat> {
    if ls == [] then None
    else
      var n := |ls| - 1;
      if After(ls[..n]).ended then OpenReader(ls[..n])
      else if ls[n].Label? && IsReader(ls[n].name) then Some(After(ls[..n]).org)
      else if Closes(ls[n]) then None
      else OpenReader(ls[..n])
  }

  /** The open reader is page-checked, and crosses a page before `org`. */
  predicate ReaderCrosses(padded: bool, reader: Option<nat>, org: nat) {
    padded && reader.Some? && !OnePage(reader.value, org)
  }

  /** Line `l` cannot be repaired: no alignment, a backward `org`, a table whose window is in
      another page, or the end of a reader that crosses a page. */
  predicate Unrepairable(l: Line, w: Walk, padded: bool, reader: Option<nat>) {
    !w.ended &&
    (|| (l.Align? && l.n == 0)
     || (l.Org? && l.target < w.org)
     || (l.Table? && !TableFits(w.org, l.size) && AlignUp(w.org, 256) / 2048 != w.org / 2048)
     || (Closes(l) && ReaderCrosses(padded, reader, w.org)))
  }

  ghost predicate RefusedAt(src: seq<Line>, i: nat)
    requires i < |src|
  {
    var out := Weave(src, PadsOf(src, i), i);
    Unrepairable(src[i], After(out), PadsOf(src, i) != {}, OpenReader(out))
  }

  /** The padded text ends in a reader that crosses a page, or puts a modelled base off its page. */
  ghost predicate RefusedAtEnd(src: seq<Line>, pages: seq<(string, nat)>) {
    var pads := PadsOf(src, |src|);
    var out := Weave(src, pads, |src|);
    ReaderCrosses(pads != {}, OpenReader(out), After(out).org) || !PagesOk(Bases(out), pages)
  }

  ghost predicate Refusal(src: seq<Line>, pages: seq<(string, nat)>) {
    (exists i: nat :: i < |src| && RefusedAt(src, i)) || RefusedAtEnd(src, pages)
  }

  /** `r` is what `Repair` may return: a repaired text, and for a fitting text that text itself,
      unless a modelled base is off its page. */
  ghost predicate Outcome(src: seq<Line>, locs: seq<Option<nat>>, pages: seq<(string, nat)>, r: Option<Text>)
    requires |locs| == |src|
  {
    && (r.Some? ==> Repaired(src, locs, pages, PadsOf(src, |src|), r.value))
    && (r.None? <==> Refusal(src, pages))
    && (Fits(src) ==> (r.Some? <==> PagesOk(Bases(src), pages)) && (r.Some? ==> r.value == (src, locs)))
  }

  /** The walk so far. */
  ghost predicate Tracked(src: seq<Line>, locs: seq<Option<nat>>, i: nat, pads: set<nat>, t: Text, w: Walk,
                          padded: bool,
                          since: nat)
    requires |locs| == |src| && i <= |src|
  {
    && t.0 == Weave(src, pads, i) && t.1 == WeaveLocs(locs, pads, i) && PadsExact(src, pads, i)
    && w == After(t.0) && w.faults <= {BadAlign}
    && (padded <==> pads != {}) && (Fits(src) ==> pads == {})
    && (forall k <- pads :: k < |src| && since <= |Weave(src, pads, k)|)
  }

  /** What the walk so far has to refuse, and where it would pad. */
  lemma RefusedHere(src: seq<Line>, locs: seq<Option<nat>>, i: nat, pads: set<nat>, t: Text, w: Walk, padded: bool,
                    since: nat, reader: Option<nat>)
    requires |locs| == |src| && i < |src| && Tracked(src, locs, i, pads, t, w, padded, since)
    requires pads == PadsOf(src, i) && reader == OpenReader(t.0)
    ensures RefusedAt(src, i) <==> Unrepairable(src[i], w, padded, reader)
    ensures PadsOf(src, i + 1) == if !w.ended && src[i].Table?
      && !TableFits(w.org, src[i].size) then pads + {i} else pads
    ensures After(t.0) == w
  {
    hide After, Weave, OpenReader, Unrepairable, TableFits, PadsExact, Fits;
  }

  lemma OpenSnoc(ls: seq<Line>, l: Line)
    ensures OpenReader(ls + [l]) ==
            if After(ls).ended then OpenReader(ls)
            else if l.Label? && IsReader(l.name) then Some(After(ls).org)
            else if Closes(l) then None
            else OpenReader(ls)
  {
    hide After;
    assert (ls + [l])[..|ls|] == ls;
  }

  /** A padded table leaves no reader open. */
  lemma OpenPadded(ls: seq<Line>, l: Line)
    requires l.Table? && !After(ls).ended && !After(ls + [Align(256)]).ended
    ensures OpenReader(ls + [Align(256)] + [l]) == None
  {
    hide After;
    OpenSnoc(ls + [Align(256)], l);
  }

  /** A line passed through. */
  lemma Passed(src: seq<Line>, locs: seq<Option<nat>>, i: nat, pads: set<nat>, t: Text, w: Walk, padded: bool,
               since: nat)
    requires |locs| == |src| && i < |src| && Tracked(src, locs, i, pads, t, w, padded, since)
    requires !Crosses(src, pads, i) && Step(w, src[i]).faults <= {BadAlign}
    ensures Tracked(src, locs, i + 1, pads, (t.0 + [src[i]], t.1 + [locs[i]]), Step(w, src[i]), padded, since)
  {
    hide Step, Crosses, Fits, After;
    AfterSnoc(t.0, src[i]);
  }

  /** A table padded. */
  lemma Padded(src: seq<Line>, locs: seq<Option<nat>>, i: nat, pads: set<nat>, t: Text, w: Walk, padded: bool,
               since: nat)
    requires |locs| == |src| && i < |src| && Tracked(src, locs, i, pads, t, w, padded, since)
    requires Crosses(src, pads, i)
    ensures var t' := (t.0 + [Align(256)] + [src[i]], t.1 + [None] + [locs[i]]);
            && Tracked(src, locs, i + 1, pads + {i}, t', w.(org := AlignUp(w.org, 256)), true,
                       if padded then since else |t.0|)
            && After(t.0 + [Align(256)]) == w.(org := AlignUp(w.org, 256))
  {
    hide Crosses, Fits, PadsExact, AlignUp, After;
    var pads' := pads + {i};
    WeaveSame(src, pads, pads', i);
    WeaveLocsSame(locs, pads, pads', i);
    PaddedWalk(src, i, pads, t.0, w);
    PaddedExact(src, i, pads);
    Misfit(src, pads, i);
    PaddedSince(src, i, pads, t.0, padded, since);
  }

  lemma PaddedWalk(src: seq<Line>, i: nat, pads: set<nat>, out: seq<Line>, w: Walk)
    requires i < |src| && Crosses(src, pads, i) && out == Weave(src, pads, i) && w == After(out)
    ensures After(out + [Align(256)]) == w.(org := AlignUp(w.org, 256))
    ensures After(out + [Align(256)] + [src[i]]) == w.(org := AlignUp(w.org, 256))
  {
    hide AlignUp, IsPowerOfTwo, After, Stream.InsertLabel;
    Align256(w.org);
    Power256();
    AfterSnoc(out, Align(256));
    AfterSnoc(out + [Align(256)], src[i]);
  }

  lemma PaddedExact(src: seq<Line>, i: nat, pads: set<nat>)
    requires i < |src| && Crosses(src, pads, i) && PadsExact(src, pads, i)
    ensures PadsExact(src, pads + {i}, i + 1)
  {
    hide Crosses;
    var pads' := pads + {i};
    forall k: nat | k <= i ensures Crosses(src, pads', k) == Crosses(src, pads, k) {
      CrossesSame(src, pads, pads', k);
    }
  }

  lemma PaddedSince(src: seq<Line>, i: nat, pads: set<nat>, out: seq<Line>, padded: bool, since: nat)
    requires i < |src| && PadsExact(src, pads, i) && out == Weave(src, pads, i) && (padded <==> pads != {})
    requires forall k <- pads :: k < |src| && since <= |Weave(src, pads, k)|
    ensures var since' := if padded then since else |out|;
            forall k <- pads + {i} :: k < |src| && since' <= |Weave(src, pads + {i}, k)|
  {
    hide Crosses, Weave;
    var pads' := pads + {i};
    forall k <- pads' ensures k < |src| && Weave(src, pads', k) == Weave(src, pads, k) {
      if k != i { assert k < i; }
      WeaveSame(src, pads, pads', k);
    }
    if padded { WeaveGrows(src, pads, pads', i, since); }
  }

  lemma {:induction false} WeaveLonger(src: seq<Line>, pads: set<nat>, k: nat, i: nat)
    requires k <= i <= |src|
    ensures |Weave(src, pads, k)| <= |Weave(src, pads, i)|
    decreases i - k
  {
    if k < i { WeaveLonger(src, pads, k, i - 1); }
  }

  lemma WeaveGrows(src: seq<Line>, pads: set<nat>, pads': set<nat>, i: nat, since: nat)
    requires i < |src| && pads != {} && forall k <- pads :: k < i && since <= |Weave(src, pads, k)|
    ensures since <= |Weave(src, pads, i)|
  {
    var k :| k in pads;
    WeaveLonger(src, pads, k, i);
  }

  lemma CrossesSame(src: seq<Line>, pads: set<nat>, pads': set<nat>, k: nat)
    requires k < |src| && forall c: nat :: c < k ==> (c in pads <==> c in pads')
    ensures Crosses(src, pads, k) == Crosses(src, pads', k) && Weave(src, pads, k) == Weave(src, pads', k)
  {
    WeaveSame(src, pads, pads', k);
  }

  /** A text with a crossing table and no pad yet does not fit. */
  lemma Misfit(src: seq<Line>, pads: set<nat>, i: nat)
    requires i < |src| && Crosses(src, pads, i)
    ensures pads == {} ==> !Fits(src)
  {
    if pads == {} {
      WeaveNone(src, i);
      assert src[..i + 1] == src[..i] + [src[i]];
      AfterSnoc(src[..i], src[i]);
      FaultsStay(src, i + 1);
    }
  }

  /** A fault of the walk over an unpadded prefix is a fault of the text. */
  lemma Faulty(src: seq<Line>, locs: seq<Option<nat>>, i: nat, pads: set<nat>, t: Text, w: Walk, padded: bool,
               since: nat)
    requires |locs| == |src| && i < |src| && Tracked(src, locs, i, pads, t, w, padded, since)
    requires Step(w, src[i]).faults != {}
    ensures !Fits(src)
  {
    hide Step, After, PadsExact;
    if pads == {} {
      WeaveNone(src, i);
      assert src[..i + 1] == src[..i] + [src[i]];
      AfterSnoc(src[..i], src[i]);
      FaultsStay(src, i + 1);
    }
  }

  // ---- Each kind of line -------------------------------------------------------------

  /** A line that closes no reader, or stands behind `end`. */
  lemma PlainLine(src: seq<Line>, locs: seq<Option<nat>>, i: nat, pads: set<nat>, t: Text, w: Walk, padded: bool,
                  since: nat, reader: Option<nat>)
    requires |locs| == |src| && i < |src| && Tracked(src, locs, i, pads, t, w, padded, since)
    requires Readers(t.0, reader, w.org, padded, since)
    requires w.ended || (!Closes(src[i]) && (src[i].Align? ==> src[i].n > 0))
    requires w.ended ==> reader.None?
    ensures Tracked(src, locs, i + 1, pads, (t.0 + [src[i]], t.1 + [locs[i]]), Step(w, src[i]), padded, since)
    ensures Readers(t.0 + [src[i]], reader, Step(w, src[i]).org, padded, since)
    ensures Step(w, src[i]).ended == w.ended && Bases(t.0 + [src[i]]) == Bases(t.0)
  {
    hide Readers, PadsExact, Fits, AlignUp, IsPowerOfTwo, Stream.InsertLabel, TableFits, ReaderAt, OnePage;
    var l := src[i];
    BasesSnoc(t.0, l);
    if l.Align? && l.n > 0 { AlignGrows(w.org, l.n); }
    Passed(src, locs, i, pads, t, w, padded, since);
    if w.ended {
      ReadersEnded(t.0, l, w.org, padded, since);
    } else {
      ReadersOn(t.0, l, reader, w.org, Step(w, l).org, padded, since);
    }
  }

  /** Behind `end` no reader is open, and none opens. */
  lemma ReadersEnded(ls: seq<Line>, l: Line, hi: nat, padded: bool, since: nat)
    requires Readers(ls, None, hi, padded, since) && After(ls).ended
    ensures Readers(ls + [l], None, hi, padded, since)
  {
    hide ReaderFits, WordsIn;
    var ls' := ls + [l];
    assert ls'[..|ls|] == ls;
    forall j: nat | j < |ls'| && ReaderAt(ls', j) ensures ReaderOk(ls', j, None, hi, padded, since) {
      assert j < |ls|;
      ReaderSnoc(ls, l, j);
      assert ReaderOk(ls, j, None, hi, padded, since);
      CloseSnoc(ls, l, j + 1);
      FitsSnoc(ls, l, j);
    }
  }

  lemma ReaderIf(ls: seq<Line>, l: Line)
    ensures ReaderAt(ls + [l], |ls|) ==> l.Label? && IsReader(l.name)
  {
  }

  /** A line that closes the open reader, now checked, and may open the next. */
  lemma ClosingLine(src: seq<Line>, locs: seq<Option<nat>>, i: nat, pads: set<nat>, t: Text, w: Walk, padded: bool,
                    since: nat, reader: Option<nat>, reader': Option<nat>)
    requires |locs| == |src| && i < |src| && Tracked(src, locs, i, pads, t, w, padded, since)
    requires Readers(t.0, reader, w.org, padded, since) && !w.ended && Closes(src[i])
    requires reader.Some? && padded ==> OnePage(reader.value, w.org)
    requires src[i].Org? ==> w.org <= src[i].target
    requires src[i].Table? ==> TableFits(w.org, src[i].size)
    requires src[i].Label? && IsReader(src[i].name) ==> reader' == Some(w.org)
    ensures Tracked(src, locs, i + 1, pads, (t.0 + [src[i]], t.1 + [locs[i]]), Step(w, src[i]), padded, since)
    ensures Readers(t.0 + [src[i]], reader', Step(w, src[i]).org, padded, since)
    ensures Bases(t.0 + [src[i]]) == if src[i].Label? then Bases(t.0)[src[i].name := w.org] else Bases(t.0)
  {
    hide Readers, PadsExact, Fits, AlignUp, IsPowerOfTwo, Stream.InsertLabel, TableFits, ReaderAt, OnePage, IsReader;
    var l := src[i];
    BasesSnoc(t.0, l);
    ReaderIf(t.0, l);
    Passed(src, locs, i, pads, t, w, padded, since);
    ReadersClose(t.0, l, reader, w.org, padded, since, reader');
  }

  /** A padded table: the reader in front of it is checked as it stood before the pad. */
  lemma PaddedLine(src: seq<Line>, locs: seq<Option<nat>>, i: nat, pads: set<nat>, t: Text, w: Walk, padded: bool,
                   since: nat, reader: Option<nat>)
    requires |locs| == |src| && i < |src| && Tracked(src, locs, i, pads, t, w, padded, since)
    requires Readers(t.0, reader, w.org, padded, since) && !w.ended
    requires src[i].Table? && !TableFits(w.org, src[i].size)
    requires reader.Some? && padded ==> OnePage(reader.value, w.org)
    ensures var t' := (t.0 + [Align(256)] + [src[i]], t.1 + [None] + [locs[i]]);
            var w' := w.(org := AlignUp(w.org, 256)); var since' := if padded then since else |t.0|;
            && Tracked(src, locs, i + 1, pads + {i}, t', w', true, since')
            && Readers(t'.0, None, w'.org, true, since') && Bases(t'.0) == Bases(t.0)
    ensures !After(t.0 + [Align(256)]).ended
    ensures !Fits(src) || pads != {}
  {
    hide Readers, PadsExact, Fits, AlignUp, IsPowerOfTwo, Stream.InsertLabel, TableFits, ReaderAt, OnePage;
    var l := src[i];
    assert Crosses(src, pads, i);
    Padded(src, locs, i, pads, t, w, padded, since);
    Misfit(src, pads, i);
    BasesSnoc(t.0, Align(256));
    BasesSnoc(t.0 + [Align(256)], l);
    ReadersOn(t.0, Align(256), reader, w.org, w.org, padded, since);
    ReaderIf(t.0 + [Align(256)], l);
    ReadersClose(t.0 + [Align(256)], l, reader, w.org, padded, since, None);
    SinceFirst(t.0, l, padded, since);
  }

  lemma SinceFirst(ls: seq<Line>, l: Line, padded: bool, since: nat)
    requires l.Table?
    requires Readers(ls + [Align(256)] + [l], None, Step(After(ls + [Align(256)]), l).org, padded, since)
    ensures Readers(ls + [Align(256)] + [l], None, Step(After(ls + [Align(256)]), l).org, true,
                    if padded then since else |ls|)
  {
    hide Step, After, ReaderFits, WordsIn;
    var ls' := ls + [Align(256)] + [l];
    var org := Step(After(ls + [Align(256)]), l).org;
    forall j: nat | j < |ls'| && ReaderAt(ls', j)
      ensures ReaderOk(ls', j, None, org, true, if padded then since else |ls|) {
      assert ReaderOk(ls', j, None, org, padded, since);
    }
  }

  lemma Refused(src: seq<Line>, locs: seq<Option<nat>>, pages: seq<(string, nat)>, i: nat)
    requires |locs| == |src| && !Fits(src) && i < |src| && RefusedAt(src, i)
    ensures Outcome(src, locs, pages, None)
  {
  }

  lemma RefusedLast(src: seq<Line>, locs: seq<Option<nat>>, pages: seq<(string, nat)>, pads: set<nat>, t: Text, w: Walk,
                    padded: bool, since: nat, reader: Option<nat>)
    requires |locs| == |src| && !Fits(src) && Tracked(src, locs, |src|, pads, t, w, padded, since)
    requires pads == PadsOf(src, |src|) && reader == OpenReader(t.0) && ReaderCrosses(padded, reader, w.org)
    ensures Outcome(src, locs, pages, None)
  {
    hide After, Weave, OpenReader, OnePage, Fits, PadsExact;
  }

  lemma Unpaged(bases: map<string, nat>, pages: seq<(string, nat)>, k: nat)
    requires k < |pages| && !(pages[k].0 in bases && bases[pages[k].0] / PAGE == pages[k].1)
    ensures !PagesOk(bases, pages)
  {
  }

  lemma Paged(bases: map<string, nat>, pages: seq<(string, nat)>, k: nat)
    requires k < |pages| && PagesOk(bases, pages[..k])
    requires pages[k].0 in bases && bases[pages[k].0] / PAGE == pages[k].1
    ensures PagesOk(bases, pages[..k + 1])
  {
    var upto := pages[..k + 1];
    forall c | 0 <= c < |upto| ensures upto[c].0 in bases && bases[upto[c].0] / PAGE == upto[c].1 {
      if c < k { assert upto[c] == pages[..k][c]; }
    }
  }

  /** At the end of the text every reader behind the first pad is in its page. */
  lemma AllReadersFit(out: seq<Line>, reader: Option<nat>, hi: nat, padded: bool, since: nat, j: nat)
    requires Readers(out, reader, hi, padded, since) && padded && since < j < |out|
    requires reader.Some? && padded ==> OnePage(reader.value, hi)
    ensures ReaderFits(out, j)
  {
    hide OnePage;
    if ReaderAt(out, j) {
      assert ReaderOk(out, j, reader, hi, padded, since);
      if CloseFrom(out, j + 1) == |out| {
        forall k: nat | j <= k < |out| && IsWord(out[k]) ensures AddrAt(out, k) / PAGE == AddrAt(out, j) / PAGE {
          SamePage(AddrAt(out, j), AddrAt(out, k), hi);
        }
      }
    }
  }

  lemma Finished(src: seq<Line>, locs: seq<Option<nat>>, pages: seq<(string, nat)>, pads: set<nat>, t: Text, w: Walk,
                 padded: bool, since: nat, reader: Option<nat>)
    requires |locs| == |src| && Tracked(src, locs, |src|, pads, t, w, padded, since)
    requires Readers(t.0, reader, w.org, padded, since)
    requires reader.Some? && padded ==> OnePage(reader.value, w.org)
    requires pads == PadsOf(src, |src|) && reader == OpenReader(t.0) && forall i: nat :: i < |src| ==>
      !RefusedAt(src, i)
    ensures Outcome(src, locs, pages, if PagesOk(Bases(t.0), pages) then Some(t) else None)
  {
    hide Readers, PagesOk, Bases, Fits, ReaderFits, After, OnePage, RefusedAt, OpenReader, Repaired, Tracked,
      RefusedAtEnd;
    EndRefused(src, locs, pages, pads, t, w, padded, since, reader);
    if Fits(src) { FitKept(src, locs, pads, t, w, padded, since); }
    if PagesOk(Bases(t.0), pages) {
      DoneRepaired(src, locs, pages, pads, t, w, padded, since, reader);
    }
  }

  lemma EndRefused(src: seq<Line>, locs: seq<Option<nat>>, pages: seq<(string, nat)>, pads: set<nat>, t: Text, w: Walk,
                   padded: bool, since: nat, reader: Option<nat>)
    requires |locs| == |src| && Tracked(src, locs, |src|, pads, t, w, padded, since)
    requires pads == PadsOf(src, |src|) && reader == OpenReader(t.0)
    requires reader.Some? && padded ==> OnePage(reader.value, w.org)
    ensures RefusedAtEnd(src, pages) <==> !PagesOk(Bases(t.0), pages)
  {
    hide PadsExact, PagesOk, Bases, Fits, After, OnePage, OpenReader, PadsOf;
  }

  lemma FitKept(src: seq<Line>, locs: seq<Option<nat>>, pads: set<nat>, t: Text, w: Walk, padded: bool, since: nat)
    requires |locs| == |src| && Tracked(src, locs, |src|, pads, t, w, padded, since) && Fits(src)
    ensures t == (src, locs)
  {
    hide PadsExact, Fits, After;
    WeaveNone(src, |src|);
    WeaveLocsNone(locs, |locs|);
    assert src[..|src|] == src && locs[..|locs|] == locs;
  }

  lemma DoneRepaired(src: seq<Line>, locs: seq<Option<nat>>, pages: seq<(string, nat)>, pads: set<nat>, t: Text,
                     w: Walk,
                     padded: bool, since: nat, reader: Option<nat>)
    requires |locs| == |src| && Tracked(src, locs, |src|, pads, t, w, padded, since)
    requires Readers(t.0, reader, w.org, padded, since) && PagesOk(Bases(t.0), pages)
    requires reader.Some? && padded ==> OnePage(reader.value, w.org)
    ensures Repaired(src, locs, pages, pads, t)
  {
    hide Readers, PadsExact, PagesOk, Bases, Fits, ReaderFits, After, OnePage;
    forall i: nat, j: nat | i in pads && i < |src| && |Weave(src, pads, i)| < j < |t.0| ensures ReaderFits(t.0, j) {
      AllReadersFit(t.0, reader, w.org, padded, since, j);
    }
  }

  /** The reader's page check on closing; `false` stands for its panic. */
  method CloseReader(reader: Option<(string, nat)>, end: nat, check: bool) returns (ok: bool)
    ensures ok <==> (reader.Some? && check ==> OnePage(reader.value.1, end))
  {
    ok := true;
    if reader.Some? {
      var start := reader.value.1;
      if check && end > start {
        var last := end - 1;
        ok := start / PAGE == last / PAGE;
      }
    }
  }

  /** The pass. `None` stands for its panics. */
  method Repair(src: seq<Line>, locs: seq<Option<nat>>, pages: seq<(string, nat)>) returns (r: Option<Text>)
    requires |locs| == |src|
    ensures Outcome(src, locs, pages, r)
  {
    hide Tracked, Readers, Fits, Crosses, PadsExact, Outcome, PagesOk, OnePage, TableFits, IsReader, AlignUp,
         Bases, After, IsPowerOfTwo, Stream.InsertLabel, PadsOf, OpenReader, RefusedAt;
    var out: seq<Line>, outLocs: seq<Option<nat>> := [], [];
    var org: nat, reader: Option<(string, nat)>, padded, ended, bases: map<string, nat> := 0, None, false, false, map[];
    ghost var pads: set<nat>, since: nat, w := {}, 0, START;
    Started(src, locs);
    var i := 0;
    while i < |src|
      invariant i <= |src| && Tracked(src, locs, i, pads, (out, outLocs), w, padded, since)
      invariant w.org == org && w.ended == ended && bases == Bases(out)
      invariant Readers(out, Start(reader), org, padded, since)
      invariant ended ==> reader.None?
      invariant (padded <==> pads != {}) && (padded ==> !Fits(src))
      invariant pads == PadsOf(src, i) && Start(reader) == OpenReader(out)
      invariant forall j: nat :: j < i ==> !RefusedAt(src, j)
    {
      var l := src[i];
      ghost var t := (out, outLocs);
      RefusedHere(src, locs, i, pads, t, w, padded, since, Start(reader));
      OpenSnoc(out, l);
      if !ended && l.Align? && l.n == 0 {
        Faulty(src, locs, i, pads, t, w, padded, since);
        Refused(src, locs, pages, i);
        return None;
      }
      if ended || !Closes(l) {
        PlainLine(src, locs, i, pads, t, w, padded, since, Start(reader));
        if !ended {
          if l.Align? { org := AlignUp(org, l.n); }
          if l.Instr? { org := org + 1; }
        }
        w := Step(w, l);
      } else {
        var ok := CloseReader(reader, org, padded);
        if !ok {
          Refused(src, locs, pages, i);
          return None;
        }
        if l.Org? && l.target < org {
          Faulty(src, locs, i, pads, t, w, padded, since);
          Refused(src, locs, pages, i);
          return None;
        }
        var start := org;
        if l.Table? && !TableFits(org, l.size) {
          PaddedLine(src, locs, i, pads, t, w, padded, since, Start(reader));
          org := AlignUp(org, 256);
          if org / PAGE != start / PAGE {
            Refused(src, locs, pages, i);
            return None;
          }
          OpenPadded(out, l);
          out := out + [Align(256)];
          outLocs := outLocs + [None];
          since := if padded then since else |t.0|;
          padded, pads := true, pads + {i};
          w := w.(org := org);
          reader := None;
        } else {
          ClosingLine(src, locs, i, pads, t, w, padded, since, Start(reader),
                      if l.Label? && IsReader(l.name) then Some(org) else None);
          w := Step(w, l);
          reader := None;
          match l {
            case Label(name, instr) =>
              if IsReader(name) { reader := Some((name, org)); }
              bases := bases[name := org];
              if instr { org := org + 1; }
            case Org(target) => org := target;
            case End => ended := true;
            case _ =>
          }
        }
      }
      out := out + [l];
      outLocs := outLocs + [locs[i]];
      i := i + 1;
    }
    var closed := CloseReader(reader, org, padded);
    if !closed {
      RefusedLast(src, locs, pages, pads, (out, outLocs), w, padded, since, Start(reader));
      return None;
    }
    var t := (out, outLocs);
    Started(src, locs);
    assert pages[..0] == [];
    for k := 0 to |pages|
      invariant PagesOk(bases, pages[..k])
    {
      var (base, page) := pages[k];
      if base !in bases || bases[base] / PAGE != page {
        Unpaged(bases, pages, k);
        Finished(src, locs, pages, pads, t, w, padded, since, Start(reader));
        return None;
      }
      Paged(bases, pages, k);
    }
    assert pages[..|pages|] == pages;
    Finished(src, locs, pages, pads, t, w, padded, since, Start(reader));
    return Some(t);
  }

  function Start(reader: Option<(string, nat)>): Option<nat> {
    match reader case Some(p) => Some(p.1) case None => None
  }

  lemma Started(src: seq<Line>, locs: seq<Option<nat>>)
    requires |locs| == |src|
    ensures Tracked(src, locs, 0, {}, ([], []), START, false, 0) && Readers([], None, 0, false, 0)
    ensures PadsOf(src, 0) == {} && OpenReader([]) == None
    ensures Bases([]) == map[] && forall bases :: PagesOk(bases, [])
  {
  }

  /** The assembler resolves `name` to an address in `page`. */
  ghost predicate InPage(ls: seq<Line>, name: string, page: nat) {
    var n := Stream.User(name);
    n in After(ls).symbols && page * 2048 <= After(ls).symbols[n] < (page + 1) * 2048
  }

  // ---- What follows ------------------------------------------------------------------

  predicate AlignsGood(ls: seq<Line>) {
    forall k :: 0 <= k < |ls| && ls[k].Align? ==> ls[k].n >= 2 && IsPowerOfTwo(ls[k].n)
  }

  lemma {:induction false} WeaveGood(src: seq<Line>, pads: set<nat>, i: nat)
    requires i <= |src| && AlignsGood(src)
    ensures AlignsGood(Weave(src, pads, i))
  {
    if i > 0 {
      WeaveGood(src, pads, i - 1);
      Power256();
    }
  }

  lemma {:induction false} GoodNoFault(ls: seq<Line>)
    requires AlignsGood(ls)
    ensures BadAlign !in After(ls).faults
    decreases |ls|
  {
    hide IsPowerOfTwo, AlignUp, TableFits, Stream.InsertLabel;
    if ls != [] {
      var n := |ls| - 1;
      assert forall k :: 0 <= k < n ==> ls[..n][k] == ls[k];
      GoodNoFault(ls[..n]);
    }
  }

  /** A repaired text assembles: no crossing table, no backward `org`, and every label at the
      address recorded for it, which is in its modelled page. */
  lemma RepairedAssembles(src: seq<Line>, locs: seq<Option<nat>>, pages: seq<(string, nat)>, t: Text)
    requires |locs| == |src| && Outcome(src, locs, pages, Some(t))
    ensures After(t.0).faults <= {BadAlign} && (AlignsGood(src) ==> After(t.0).faults == {})
    ensures forall k :: 0 <= k < |pages| && NoEqu(t.0, pages[k].0) ==>
              InPage(t.0, pages[k].0, pages[k].1)
  {
    hide PadsExact, ReaderFits, After, Bases, NoEqu;
    var pads := PadsOf(src, |src|);
    assert Repaired(src, locs, pages, pads, t);
    if AlignsGood(src) {
      WeaveGood(src, pads, |src|);
      GoodNoFault(t.0);
    }
    forall k | 0 <= k < |pages| && NoEqu(t.0, pages[k].0)
      ensures InPage(t.0, pages[k].0, pages[k].1)
    {
      SymbolsMatch(t.0, pages[k].0);
    }
  }

  /** Repairing a repaired text changes nothing. */
  lemma RepairIdempotent(src: seq<Line>, locs: seq<Option<nat>>, pages: seq<(string, nat)>, t: Text, r: Option<Text>)
    requires |locs| == |src| && Outcome(src, locs, pages, Some(t)) && AlignsGood(src)
    requires |t.1| == |t.0| && Outcome(t.0, t.1, pages, r)
    ensures r == Some(t)
  {
    RepairedAssembles(src, locs, pages, t);
    hide PadsExact, ReaderFits, After, Bases, PagesOk;
    var pads := PadsOf(src, |src|);
    assert Repaired(src, locs, pages, pads, t);
  }

  /** Source locations stay parallel to the lines. */
  lemma {:induction false} WeaveParallel(src: seq<Line>, locs: seq<Option<nat>>, pads: set<nat>, i: nat)
    requires i <= |src| == |locs|
    ensures |Weave(src, pads, i)| == |WeaveLocs(locs, pads, i)|
  {
    if i > 0 { WeaveParallel(src, locs, pads, i - 1); }
  }
}
