/**
  The ranking step of `strings_ranked_by_relatedness` (plataforma/views.py and
  plataforma/views_old.py carry the same code): each row's text is scored
  against the query embedding, the (text, score) list is sorted in place by
  score, highest first, with ties kept in corpus order, and both columns are
  cut to the first `top_n`.
 */
module Ranking {
  import opened Wrappers
  import Sequences

  type Vector = seq<real>

  /** A text with its relatedness to the query. */
  type Scored = (string, real)

  /** Scores never increase along the list. */
  predicate SortedDesc(xs: seq<Scored>) {
    forall i, j :: 0 <= i < j < |xs| ==> xs[i].1 >= xs[j].1
  }

  // ---------------------------------------------------------------------
  // The stable descending sort, as a function

  /** `x` placed after every leading entry that scores at least as high. */
  function Insert(x: Scored, xs: seq<Scored>): (r: seq<Scored>)
    ensures |r| == |xs| + 1
  {
    if xs == [] then [x]
    else if xs[0].1 >= x.1 then [xs[0]] + Insert(x, xs[1..])
    else [x] + xs
  }

  /** What sorting `xs` by score, highest first, stably, yields: insertion from left to right. */
  function SortDesc(xs: seq<Scored>): (r: seq<Scored>)
    ensures |r| == |xs|
  {
    if xs == [] then [] else Insert(xs[|xs| - 1], SortDesc(xs[..|xs| - 1]))
  }

  /** The entries of `xs` whose score is exactly `v`, in order. */
  function WithScore(xs: seq<Scored>, v: real): seq<Scored> {
    if xs == [] then []
    else (if xs[0].1 == v then [xs[0]] else []) + WithScore(xs[1..], v)
  }

  lemma {:induction false} InsertSorted(x: Scored, xs: seq<Scored>)
    requires SortedDesc(xs)
    ensures SortedDesc(Insert(x, xs))
    ensures forall k :: 0 <= k < |Insert(x, xs)| ==> Insert(x, xs)[k] == x || Insert(x, xs)[k] in xs
  {
    if xs != [] && xs[0].1 >= x.1 {
      InsertSorted(x, xs[1..]);
      var r := Insert(x, xs);
      assert r == [xs[0]] + Insert(x, xs[1..]);
      forall k | 0 <= k < |r| ensures r[k] == x || r[k] in xs {
        if k > 0 {
          assert r[k] == Insert(x, xs[1..])[k - 1];
        }
      }
      forall i, j | 0 <= i < j < |r| ensures r[i].1 >= r[j].1 {
        if i == 0 {
          var rj := Insert(x, xs[1..])[j - 1];
          assert rj == x || rj in xs[1..];
        }
      }
    }
  }

  lemma {:induction false} InsertPermutes(x: Scored, xs: seq<Scored>)
    ensures multiset(Insert(x, xs)) == multiset(xs) + multiset{x}
  {
    if xs != [] && xs[0].1 >= x.1 {
      InsertPermutes(x, xs[1..]);
      assert xs == [xs[0]] + xs[1..];
    }
  }

  lemma {:induction false} WithScoreConcat(xs: seq<Scored>, ys: seq<Scored>, v: real)
    ensures WithScore(xs + ys, v) == WithScore(xs, v) + WithScore(ys, v)
  {
    if xs == [] {
      assert xs + ys == ys;
    } else {
      assert (xs + ys)[1..] == xs[1..] + ys;
      WithScoreConcat(xs[1..], ys, v);
      var head := if xs[0].1 == v then [xs[0]] else [];
      Sequences.Regroup(head, WithScore(xs[1..], v), WithScore(ys, v));
    }
  }

  /** In a sorted list, `x` lands after every entry of equal score. */
  lemma {:induction false} InsertStable(x: Scored, xs: seq<Scored>, v: real)
    requires SortedDesc(xs)
    ensures WithScore(Insert(x, xs), v) == WithScore(xs, v) + WithScore([x], v)
  {
    if xs == [] {
    } else if xs[0].1 >= x.1 {
      SortedTail(xs);
      InsertStable(x, xs[1..], v);
      InsertStableStep(x, xs, v);
    } else {
      assert forall k :: 0 <= k < |xs| ==> xs[k].1 < x.1;
      InsertFront(x, xs, v);
    }
  }

  lemma SortedTail(xs: seq<Scored>)
    requires xs != [] && SortedDesc(xs)
    ensures SortedDesc(xs[1..])
  {
    forall i, j | 0 <= i < j < |xs| - 1 ensures xs[1..][i].1 >= xs[1..][j].1 {
      assert xs[1..][i] == xs[i + 1] && xs[1..][j] == xs[j + 1];
    }
  }

  /** When `x` passes the first entry, the entries of score `v` keep their order around it. */
  lemma InsertStableStep(x: Scored, xs: seq<Scored>, v: real)
    requires xs != [] && xs[0].1 >= x.1
    requires WithScore(Insert(x, xs[1..]), v) == WithScore(xs[1..], v) + WithScore([x], v)
    ensures WithScore(Insert(x, xs), v) == WithScore(xs, v) + WithScore([x], v)
  {
    var rest := Insert(x, xs[1..]);
    var a := WithScore([xs[0]], v);
    var b := WithScore(xs[1..], v);
    var c := WithScore([x], v);
    assert Insert(x, xs) == [xs[0]] + rest;
    assert xs == [xs[0]] + xs[1..];
    WithScoreConcat([xs[0]], rest, v);
    WithScoreConcat([xs[0]], xs[1..], v);
    calc {
      WithScore(Insert(x, xs), v);
      a + WithScore(rest, v);
      a + (b + c);
      { Sequences.Regroup(a, b, c); }
      (a + b) + c;
      WithScore(xs, v) + c;
    }
  }

  /** When `x` scores above every entry, no entry of `x`'s score precedes it. */
  lemma InsertFront(x: Scored, xs: seq<Scored>, v: real)
    requires forall k :: 0 <= k < |xs| ==> xs[k].1 < x.1
    ensures WithScore([x] + xs, v) == WithScore(xs, v) + WithScore([x], v)
  {
    if v == x.1 {
      NoneWithScore(xs, v);
    }
    WithScoreConcat([x], xs, v);
  }

  lemma {:induction false} NoneWithScore(xs: seq<Scored>, v: real)
    requires forall k :: 0 <= k < |xs| ==> xs[k].1 < v
    ensures WithScore(xs, v) == []
  {
    if xs != [] {
      NoneWithScore(xs[1..], v);
    }
  }

  /** The sorted list is ordered by score, highest first. */
  lemma {:induction false} SortDescSorted(xs: seq<Scored>)
    ensures SortedDesc(SortDesc(xs))
  {
    if xs != [] {
      SortDescSorted(xs[..|xs| - 1]);
      InsertSorted(xs[|xs| - 1], SortDesc(xs[..|xs| - 1]));
    }
  }

  /** The sorted list holds exactly the entries of `xs`. */
  lemma {:induction false} SortDescPermutes(xs: seq<Scored>)
    ensures multiset(SortDesc(xs)) == multiset(xs)
  {
    if xs != [] {
      var init := xs[..|xs| - 1];
      SortDescPermutes(init);
      InsertPermutes(xs[|xs| - 1], SortDesc(init));
      assert xs == init + [xs[|xs| - 1]];
    }
  }

  /** The sort is stable: entries of equal score keep their corpus order. */
  lemma {:induction false} SortDescStable(xs: seq<Scored>, v: real)
    ensures WithScore(SortDesc(xs), v) == WithScore(xs, v)
  {
    if xs != [] {
      var init := xs[..|xs| - 1];
      SortDescStable(init, v);
      SortDescSorted(init);
      InsertStable(xs[|xs| - 1], SortDesc(init), v);
      assert xs == init + [xs[|xs| - 1]];
      WithScoreConcat(init, [xs[|xs| - 1]], v);
    }
  }

  // ---------------------------------------------------------------------
  // The sort, in place

  /**
    What one pass of the insertion loop builds: `x` moved left, from the end
    of `xs`, past every entry that scores lower.
   */
  function InsertBack(x: Scored, xs: seq<Scored>): (r: seq<Scored>)
    ensures |r| == |xs| + 1
  {
    if xs == [] then [x]
    else if xs[|xs| - 1].1 < x.1 then InsertBack(x, xs[..|xs| - 1]) + [xs[|xs| - 1]]
    else xs + [x]
  }

  /** Where the pass stops, at `j`, `x` sits between `xs[..j]` and `xs[j..]`. */
  lemma {:induction false} InsertBackAt(x: Scored, xs: seq<Scored>, j: nat)
    requires j <= |xs|
    requires j > 0 ==> xs[j - 1].1 >= x.1
    requires forall k :: j <= k < |xs| ==> xs[k].1 < x.1
    ensures InsertBack(x, xs) == xs[..j] + [x] + xs[j..]
    decreases |xs|
  {
    if j < |xs| {
      var init := xs[..|xs| - 1];
      InsertBackAt(x, init, j);
      assert init[..j] == xs[..j];
      assert init[j..] + [xs[|xs| - 1]] == xs[j..];
    } else if xs != [] {
      assert xs[..j] == xs;
    }
  }

  /** The position the pass stops at. */
  function Stop(x: Scored, xs: seq<Scored>): (j: nat)
    ensures j <= |xs|
    ensures j > 0 ==> xs[j - 1].1 >= x.1
    ensures forall k :: j <= k < |xs| ==> xs[k].1 < x.1
  {
    if xs == [] then 0
    else if xs[|xs| - 1].1 < x.1 then
      var j := Stop(x, xs[..|xs| - 1]);
      assert forall k :: j <= k < |xs| - 1 ==> xs[k] == xs[..|xs| - 1][k];
      j
    else |xs|
  }

  /** In a sorted list, `Insert` puts `x` where the pass stops. */
  lemma {:induction false} InsertAt(x: Scored, xs: seq<Scored>, j: nat)
    requires SortedDesc(xs) && j <= |xs|
    requires j > 0 ==> xs[j - 1].1 >= x.1
    requires forall k :: j <= k < |xs| ==> xs[k].1 < x.1
    ensures Insert(x, xs) == xs[..j] + [x] + xs[j..]
  {
    if j > 0 {
      assert xs[0].1 >= xs[j - 1].1;
      SortedTail(xs);
      assert forall k :: j - 1 <= k < |xs| - 1 ==> xs[1..][k] == xs[k + 1];
      InsertAt(x, xs[1..], j - 1);
      SplitAround(xs, x, j);
    } else if xs != [] {
      assert xs[0].1 < x.1;
    }
  }

  lemma SplitAround(xs: seq<Scored>, x: Scored, j: nat)
    requires 0 < j <= |xs|
    ensures xs[..j] + [x] + xs[j..] == [xs[0]] + (xs[1..][..j - 1] + [x] + xs[1..][j - 1..])
  {
    assert xs[..j] == [xs[0]] + xs[1..][..j - 1];
    assert xs[j..] == xs[1..][j - 1..];
  }

  /** On a sorted list, the pass from the right inserts `x` as `Insert` does. */
  lemma InsertBackIsInsert(x: Scored, xs: seq<Scored>)
    requires SortedDesc(xs)
    ensures InsertBack(x, xs) == Insert(x, xs)
  {
    var j := Stop(x, xs);
    InsertBackAt(x, xs, j);
    InsertAt(x, xs, j);
  }

  /** One pass of insertion sort: `a[i]` moves left past the entries before it that score lower. */
  method InsertLast(a: array<Scored>, i: nat)
    requires i < a.Length
    modifies a
    ensures a[..i + 1] == InsertBack(old(a[i]), old(a[..i]))
    ensures a[i + 1..] == old(a[i + 1..])
  {
    var x := a[i];
    ghost var p := a[..i];
    var j := i;
    while j > 0 && a[j - 1].1 < x.1
      invariant 0 <= j <= i
      invariant forall k :: 0 <= k < j ==> a[k] == p[k]
      invariant forall k :: j < k <= i ==> a[k] == p[k - 1]
      invariant forall k :: j <= k < i ==> p[k].1 < x.1
      invariant forall k :: i < k < a.Length ==> a[k] == old(a[k])
    {
      a[j] := a[j - 1];
      j := j - 1;
    }
    a[j] := x;
    Placed(a[..], p, x, j);
    InsertBackAt(x, p, j);
  }

  /** The array contents the insertion loop leaves: `p` with `x` put in at `j`. */
  lemma Placed(b: seq<Scored>, p: seq<Scored>, x: Scored, j: nat)
    requires j <= |p| < |b|
    requires forall k :: 0 <= k < j ==> b[k] == p[k]
    requires b[j] == x
    requires forall k :: j < k <= |p| ==> b[k] == p[k - 1]
    ensures b[..|p| + 1] == p[..j] + [x] + p[j..]
  {
  }

  lemma SortDescStep(xs: seq<Scored>, i: nat)
    requires i < |xs|
    ensures SortDesc(xs[..i + 1]) == Insert(xs[i], SortDesc(xs[..i]))
  {
    assert xs[..i + 1][..i] == xs[..i];
  }

  /** `strings_and_relatednesses.sort(key=lambda x: x[1], reverse=True)` */
  method SortByRelatedness(a: array<Scored>)
    modifies a
    ensures a[..] == SortDesc(old(a[..]))
  {
    ghost var xs := a[..];
    var i := 0;
    while i < a.Length
      invariant 0 <= i <= a.Length
      invariant a[..i] == SortDesc(xs[..i])
      invariant a[i..] == xs[i..]
    {
      SortDescSorted(xs[..i]);
      InsertBackIsInsert(xs[i], SortDesc(xs[..i]));
      InsertLast(a, i);
      SortDescStep(xs, i);
      i := i + 1;
    }
    assert xs[..i] == xs;
  }

  // ---------------------------------------------------------------------
  // Scoring, unzipping and truncating

  /** Python's `xs[:n]`: a negative `n` counts from the end. */
  function SliceTo<T>(xs: seq<T>, n: int): (r: seq<T>)
    ensures r <= xs
    ensures 0 <= n ==> |r| == if n < |xs| then n else |xs|
    ensures n < 0 ==> |r| == if |xs| + n > 0 then |xs| + n else 0
  {
    if 0 <= n then (if n < |xs| then xs[..n] else xs)
    else if |xs| + n > 0 then xs[..|xs| + n] else []
  }

  function Texts(xs: seq<Scored>): (r: seq<string>)
    ensures |r| == |xs| && forall i :: 0 <= i < |xs| ==> r[i] == xs[i].0
  {
    seq(|xs|, i requires 0 <= i < |xs| => xs[i].0)
  }

  function Scores(xs: seq<Scored>): (r: seq<real>)
    ensures |r| == |xs| && forall i :: 0 <= i < |xs| ==> r[i] == xs[i].1
  {
    seq(|xs|, i requires 0 <= i < |xs| => xs[i].1)
  }

  /** Each row's text scored by `relatedness(query embedding, row embedding)`, in corpus order. */
  function Score(rows: seq<(string, Vector)>, q: Vector, relatedness: (Vector, Vector) -> real): (r: seq<Scored>)
    ensures |r| == |rows| && forall i :: 0 <= i < |rows| ==> r[i] == (rows[i].0, relatedness(q, rows[i].1))
  {
    seq(|rows|, i requires 0 <= i < |rows| => (rows[i].0, relatedness(q, rows[i].1)))
  }

  /**
    The two columns `strings_ranked_by_relatedness` returns, or its error: the
    query embedding call may raise, and unpacking `zip(*[])` over an empty
    corpus raises ValueError.
   */
  function Ranked(query: string, rows: seq<(string, Vector)>, embedQuery: string -> Option<Vector>,
                  relatedness: (Vector, Vector) -> real, topN: int): Result<(seq<string>, seq<real>)>
  {
    match embedQuery(query)
    case None => Err(ServiceError)
    case Some(q) =>
      var sorted := SortDesc(Score(rows, q, relatedness));
      if sorted == [] then Err(ValueError)
      else Ok((SliceTo(Texts(sorted), topN), SliceTo(Scores(sorted), topN)))
  }

  /** `strings_ranked_by_relatedness(query, df, relatedness_fn, top_n)` */
  method StringsRankedByRelatedness(query: string, rows: seq<(string, Vector)>, embedQuery: string -> Option<Vector>,
                                    relatedness: (Vector, Vector) -> real, topN: int)
    returns (r: Result<(seq<string>, seq<real>)>)
    ensures r == Ranked(query, rows, embedQuery, relatedness, topN)
  {
    var queryEmbedding := embedQuery(query);
    if queryEmbedding.None? {
      return Err(ServiceError);
    }
    var scored := Score(rows, queryEmbedding.value, relatedness);
    var a := new Scored[|scored|](i requires 0 <= i < |scored| => scored[i]);
    assert a[..] == scored;
    SortByRelatedness(a);
    if a.Length == 0 {
      return Err(ValueError);
    }
    var sorted := a[..];
    return Ok((SliceTo(Texts(sorted), topN), SliceTo(Scores(sorted), topN)));
  }

  /**
    The ranked columns run in parallel, are `min(rows, top_n)` long for a
    non-negative `top_n`, are ordered by score with ties in corpus order, and
    come from the scored rows.
   */
  lemma RankedColumns(query: string, rows: seq<(string, Vector)>, embedQuery: string -> Option<Vector>,
                      relatedness: (Vector, Vector) -> real, topN: int)
    requires Ranked(query, rows, embedQuery, relatedness, topN).Ok?
    ensures embedQuery(query).Some? && rows != []
    ensures var (strings, scores) := Ranked(query, rows, embedQuery, relatedness, topN).value;
      var sorted := SortDesc(Score(rows, embedQuery(query).value, relatedness));
      |strings| == |scores| &&
      (0 <= topN ==> |strings| == if topN < |rows| then topN else |rows|) &&
      (forall i, j :: 0 <= i < j < |scores| ==> scores[i] >= scores[j]) &&
      (forall i :: 0 <= i < |strings| ==> sorted[i] == (strings[i], scores[i]))
  {
    var sorted := SortDesc(Score(rows, embedQuery(query).value, relatedness));
    SortDescSorted(Score(rows, embedQuery(query).value, relatedness));
    var (strings, scores) := Ranked(query, rows, embedQuery, relatedness, topN).value;
    assert strings <= Texts(sorted) && scores <= Scores(sorted);
    assert |strings| == |scores|;
  }

  /** Whatever the ranking keeps, it keeps with multiplicity from the scored rows, and the ties in their corpus order. */
  lemma RankedFromRows(rows: seq<(string, Vector)>, q: Vector, relatedness: (Vector, Vector) -> real, v: real)
    ensures multiset(SortDesc(Score(rows, q, relatedness))) == multiset(Score(rows, q, relatedness))
    ensures WithScore(SortDesc(Score(rows, q, relatedness)), v) == WithScore(Score(rows, q, relatedness), v)
  {
    SortDescPermutes(Score(rows, q, relatedness));
    SortDescStable(Score(rows, q, relatedness), v);
  }

  /** An empty corpus makes the unpacking raise, whatever the query. */
  lemma EmptyCorpusFails(query: string, embedQuery: string -> Option<Vector>, relatedness: (Vector, Vector) -> real, topN: int)
    requires embedQuery(query).Some?
    ensures Ranked(query, [], embedQuery, relatedness, topN) == Err(ValueError)
  {
  }
}
