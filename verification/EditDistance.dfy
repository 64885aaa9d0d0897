/** The option-name suggester: a one-row edit-distance loop, the distance it computes, and the
    candidate it names. The distance is the length of a shortest chain of single-character edits,
    and so a metric on strings. */
module EditDistance {
  import opened Wrappers

  // ---- The distance ------------------------------------------------------------------

  function Init(s: string): string
    requires s != ""
  {
    s[..|s| - 1]
  }

  function Last(s: string): char
    requires s != ""
  {
    s[|s| - 1]
  }

  /** The Levenshtein recurrence. */
  function Distance(a: string, b: string): nat
    decreases |a| + |b|
  {
    if a == "" then |b|
    else if b == "" then |a|
    else
      Min(Min(Distance(Init(a), Init(b)) + (if Last(a) != Last(b) then 1 else 0), Distance(a, Init(b)) + 1),
          Distance(Init(a), b) + 1)
  }

  /** One row, overwritten in place, with the diagonal saved. */
  method EditDistance(a: string, b: string) returns (d: nat)
    ensures d == Distance(a, b)
  {
    hide Distance;
    var row := new nat[|b| + 1](j requires 0 <= j => j);
    forall j | 0 <= j <= |b| ensures row[j] == Distance(a[..0], b[..j]) { FromEmpty(b[..j]); }
    for i := 0 to |a|
      invariant forall j :: 0 <= j <= |b| ==> row[j] == Distance(a[..i], b[..j])
    {
      var diag := row[0];
      row[0] := i + 1;
      FromEmpty(a[..i + 1]);
      assert b[..0] == "";
      for j := 0 to |b|
        invariant diag == Distance(a[..i], b[..j])
        invariant forall k :: 0 <= k <= j ==> row[k] == Distance(a[..i + 1], b[..k])
        invariant forall k :: j < k <= |b| ==> row[k] == Distance(a[..i], b[..k])
      {
        var up := row[j + 1];
        row[j + 1] := Min(Min(diag + (if a[i] != b[j] then 1 else 0), row[j] + 1), up + 1);
        Cell(a, b, i, j);
        diag := up;
      }
    }
    assert a[..|a|] == a && b[..|b|] == b;
    d := row[|b|];
  }

  lemma FromEmpty(s: string)
    ensures Distance("", s) == Distance(s, "") == |s|
  {
  }

  /** A cell of the table, from its three neighbours. */
  lemma Cell(a: string, b: string, i: nat, j: nat)
    requires i < |a| && j < |b|
    ensures Distance(a[..i + 1], b[..j + 1])
         == Min(Min(Distance(a[..i], b[..j]) + (if a[i] != b[j] then 1 else 0), Distance(a[..i + 1], b[..j]) + 1),
                Distance(a[..i], b[..j + 1]) + 1)
  {
    assert Init(a[..i + 1]) == a[..i] && Init(b[..j + 1]) == b[..j];
  }

  // ---- It is a metric ----------------------------------------------------------------

  lemma {:induction false} Symmetric(a: string, b: string)
    ensures Distance(a, b) == Distance(b, a)
    decreases |a| + |b|
  {
    if a != "" && b != "" {
      Symmetric(Init(a), Init(b));
      Symmetric(a, Init(b));
      Symmetric(Init(a), b);
    }
  }

  lemma {:induction false} LengthBounds(a: string, b: string)
    ensures |a| - |b| <= Distance(a, b) && |b| - |a| <= Distance(a, b) && Distance(a, b) <= |a| + |b|
    decreases |a| + |b|
  {
    if a != "" && b != "" {
      LengthBounds(Init(a), Init(b));
      LengthBounds(a, Init(b));
      LengthBounds(Init(a), b);
    }
  }

  /** The distance is zero exactly between equal strings. */
  lemma {:induction false} ZeroIffEqual(a: string, b: string)
    ensures Distance(a, b) == 0 <==> a == b
    decreases |a| + |b|
  {
    if a != "" && b != "" {
      ZeroIffEqual(Init(a), Init(b));
      assert a == Init(a) + [Last(a)] && b == Init(b) + [Last(b)];
    }
  }

  lemma {:induction false} Triangle(a: string, b: string, c: string)
    ensures Distance(a, c) <= Distance(a, b) + Distance(b, c)
    decreases |a| + |b| + |c|
  {
    if a == "" || b == "" || c == "" {
      LengthBounds(a, b);
      LengthBounds(b, c);
      LengthBounds(a, c);
    } else {
      // The last edit from `a` to `b`, and the last one from `b` to `c`.
      if Distance(a, b) == Distance(Init(a), b) + 1 {
        Triangle(Init(a), b, c);
      } else if Distance(b, c) == Distance(b, Init(c)) + 1 {
        Triangle(a, b, Init(c));
      } else if Distance(b, c) == Distance(Init(b), c) + 1 {
        Triangle(a, Init(b), c);
        Triangle(Init(a), Init(b), c);
      } else {
        Triangle(a, Init(b), Init(c));
        Triangle(Init(a), Init(b), Init(c));
      }
    }
  }

  // ---- It counts edits ---------------------------------------------------------------

  /** One character inserted, removed or replaced, `v` left behind it. */
  ghost predicate Inserted(s: string, t: string, u: string, c: char, v: string) {
    s == u + v && t == u + [c] + v
  }

  ghost predicate Replaced(s: string, t: string, u: string, x: char, y: char, v: string) {
    s == u + [x] + v && t == u + [y] + v
  }

  ghost predicate OneEdit(s: string, t: string) {
    || (exists u, c, v :: Inserted(s, t, u, c, v))
    || (exists u, c, v :: Inserted(t, s, u, c, v))
    || (exists u, x, y, v :: Replaced(s, t, u, x, y, v))
  }

  ghost predicate EditAt(p: seq<string>, k: nat)
    requires k + 1 < |p|
  {
    OneEdit(p[k], p[k + 1])
  }

  /** Each string is one edit from the one before. */
  ghost predicate Edits(p: seq<string>, a: string, b: string) {
    p != [] && p[0] == a && p[|p| - 1] == b && forall k: nat :: k + 1 < |p| ==> EditAt(p, k)
  }

  lemma {:induction false} InsertCost(u: string, c: char, v: string)
    ensures Distance(u + v, u + [c] + v) <= 1
    decreases |v|
  {
    if v == "" {
      ZeroIffEqual(u, u);
      assert u + v == u && u + [c] + v == u + [c] && Init(u + [c]) == u;
    } else {
      InsertCost(u, c, Init(v));
      assert Init(u + v) == u + Init(v) && Init(u + [c] + v) == u + [c] + Init(v);
    }
  }

  lemma {:induction false} ReplaceCost(u: string, x: char, y: char, v: string)
    ensures Distance(u + [x] + v, u + [y] + v) <= 1
    decreases |v|
  {
    if v == "" {
      ZeroIffEqual(u, u);
      assert u + [x] + v == u + [x] && u + [y] + v == u + [y] && Init(u + [x]) == u && Init(u + [y]) == u;
    } else {
      ReplaceCost(u, x, y, Init(v));
      assert Init(u + [x] + v) == u + [x] + Init(v) && Init(u + [y] + v) == u + [y] + Init(v);
    }
  }

  lemma EditCost(s: string, t: string)
    requires OneEdit(s, t)
    ensures Distance(s, t) <= 1
  {
    if u, c, v :| Inserted(s, t, u, c, v) {
      InsertCost(u, c, v);
    } else if u, c, v :| Inserted(t, s, u, c, v) {
      InsertCost(u, c, v);
      Symmetric(s, t);
    } else {
      var u, x, y, v :| Replaced(s, t, u, x, y, v);
      ReplaceCost(u, x, y, v);
    }
  }

  /** No way of editing `a` into `b` takes fewer edits than the distance. */
  lemma {:induction false} DistanceIsLower(p: seq<string>, a: string, b: string)
    requires Edits(p, a, b)
    ensures Distance(a, b) <= |p| - 1
    decreases |p|
  {
    if |p| == 1 {
      ZeroIffEqual(a, b);
    } else {
      var q := p[..|p| - 1];
      var m := q[|q| - 1];
      forall k: nat | k + 1 < |q| ensures EditAt(q, k) { assert EditAt(p, k); }
      DistanceIsLower(q, a, m);
      assert EditAt(p, |p| - 2);
      EditCost(m, b);
      Triangle(a, m, b);
    }
  }

  lemma EditsSnoc(p: seq<string>, a: string, m: string, b: string)
    requires Edits(p, a, m) && OneEdit(m, b)
    ensures Edits(p + [b], a, b)
  {
    var q := p + [b];
    forall k: nat | k + 1 < |q| ensures EditAt(q, k) {
      if k + 1 < |p| { assert EditAt(p, k); }
    }
  }

  function Behind(p: seq<string>, c: char): seq<string> {
    seq(|p|, k requires 0 <= k < |p| => p[k] + [c])
  }

  /** Editing goes on alike in front of a last character. */
  lemma EditsBehind(p: seq<string>, a: string, b: string, c: char)
    requires Edits(p, a, b)
    ensures Edits(Behind(p, c), a + [c], b + [c])
  {
    var q := Behind(p, c);
    forall k: nat | k + 1 < |q| ensures EditAt(q, k) {
      assert EditAt(p, k);
      OneEditBehind(p[k], p[k + 1], c);
    }
  }

  lemma OneEditBehind(s: string, t: string, c: char)
    requires OneEdit(s, t)
    ensures OneEdit(s + [c], t + [c])
  {
    if u, x, v :| Inserted(s, t, u, x, v) {
      assert Inserted(s + [c], t + [c], u, x, v + [c]);
    } else if u, x, v :| Inserted(t, s, u, x, v) {
      assert Inserted(t + [c], s + [c], u, x, v + [c]);
    } else {
      var u, x, y, v :| Replaced(s, t, u, x, y, v);
      assert Replaced(s + [c], t + [c], u, x, y, v + [c]);
    }
  }

  lemma LastEdits(s: string, x: char, y: char)
    ensures OneEdit(s, s + [x]) && OneEdit(s + [x], s) && OneEdit(s + [x], s + [y])
  {
    assert Inserted(s, s + [x], s, x, "");
    assert Replaced(s + [x], s + [y], s, x, y, "");
  }

  lemma EditsCons(p: seq<string>, a: string, m: string, b: string)
    requires Edits(p, m, b) && OneEdit(a, m)
    ensures Edits([a] + p, a, b)
  {
    var q := [a] + p;
    forall k: nat | k + 1 < |q| ensures EditAt(q, k) {
      if k > 0 { assert EditAt(p, k - 1); }
    }
  }

  lemma InitLast(s: string)
    requires s != ""
    ensures s == Init(s) + [Last(s)]
  {
  }

  /** And some way of editing takes exactly that many. */
  lemma {:induction false} DistanceIsReached(a: string, b: string) returns (p: seq<string>)
    ensures Edits(p, a, b) && |p| == Distance(a, b) + 1
    decreases |a| + |b|
  {
    hide Edits, OneEdit;
    if a == "" && b == "" {
      p := [""];
      Untouched(p);
    } else if a == "" || (b != "" && Distance(a, b) == Distance(a, Init(b)) + 1) {
      p := DistanceIsReached(a, Init(b));
      LastEdits(Init(b), Last(b), Last(b));
      InitLast(b);
      EditsSnoc(p, a, Init(b), b);
      p := p + [b];
    } else if b == "" || Distance(a, b) == Distance(Init(a), b) + 1 {
      var q := DistanceIsReached(Init(a), b);
      LastEdits(Init(a), Last(a), Last(a));
      InitLast(a);
      EditsCons(q, a, Init(a), b);
      p := [a] + q;
    } else {
      var q := DistanceIsReached(Init(a), Init(b));
      p := ReplaceLast(q, a, b);
    }
  }

  lemma Untouched(p: seq<string>)
    requires p == [""]
    ensures Edits(p, "", "")
  {
  }

  lemma ReplaceLast(q: seq<string>, a: string, b: string) returns (p: seq<string>)
    requires a != "" && b != "" && Edits(q, Init(a), Init(b))
    ensures Edits(p, a, b) && |p| == |q| + if Last(a) != Last(b) then 1 else 0
  {
    hide Edits, OneEdit;
    EditsBehind(q, Init(a), Init(b), Last(a));
    p := Behind(q, Last(a));
    InitLast(a);
    InitLast(b);
    if Last(a) != Last(b) {
      LastEdits(Init(b), Last(a), Last(b));
      EditsSnoc(p, a, Init(b) + [Last(a)], b);
      p := p + [b];
    }
  }

  // ---- Suggestions -------------------------------------------------------------------

  const FARTHEST := 3

  /** The first of the nearest candidates, none of them farther than the limit. */
  ghost predicate Nearest(got: string, candidates: seq<string>, k: nat) {
    && k < |candidates| && Distance(got, candidates[k]) <= 3
    && (forall j :: 0 <= j < |candidates| ==> Distance(got, candidates[k]) <= Distance(got, candidates[j]))
    && (forall j :: 0 <= j < k ==> Distance(got, candidates[k]) < Distance(got, candidates[j]))
  }

  method Suggest(got: string, candidates: seq<string>) returns (r: string)
    ensures (exists k: nat :: Nearest(got, candidates, k) && r == " (did you mean " + candidates[k] + "?)")
         || (r == "" && forall j :: 0 <= j < |candidates| ==> Distance(got, candidates[j]) > 3)
  {
    hide Distance;
    var best: Option<nat> := None;
    var least := FARTHEST + 1;
    for k := 0 to |candidates|
      invariant best.None? ==>
        least == FARTHEST + 1 && forall j :: 0 <= j < k ==> Distance(got, candidates[j]) > FARTHEST
      invariant best.Some? ==>
        Nearest(got, candidates[..k], best.value) && least == Distance(got, candidates[best.value])
    {
      var d := EditDistance(got, candidates[k]);
      ghost var was := candidates[..k];
      assert forall j :: 0 <= j < k ==> candidates[..k + 1][j] == was[j];
      if d <= FARTHEST && (best.None? || d < least) {
        best, least := Some(k), d;
      }
    }
    assert candidates[..|candidates|] == candidates;
    match best {
      case Some(k) => r := " (did you mean " + candidates[k] + "?)";
      case None => r := "";
    }
  }
}
