/**
 * The two ranking rules of logic.py:166-182, on one column at a time:
 * pandas' `Series.rank` with its default "average" tie rule (missing
 * values keep a missing rank), and the "min" (competition) rank used for
 * the Adjusted_Rank column.
 */
module Ranking {
  import opened Wrappers
  import Seqs

  /** x places ahead of y: smaller first when ascending, larger first otherwise. */
  predicate Ahead(ascending: bool, x: real, y: real)
  {
    if ascending then x < y else x > y
  }

  /** The number of present values of col. */
  function Present(col: seq<Option<real>>): nat
    decreases |col|
  {
    if col == [] then 0 else Present(col[..|col| - 1]) + (if col[|col| - 1].Some? then 1 else 0)
  }

  /** The number of present values of col that place strictly ahead of v. */
  function CountAhead(asc: bool, col: seq<Option<real>>, v: real): nat
    decreases |col|
  {
    if col == [] then 0
    else CountAhead(asc, col[..|col| - 1], v) +
         (if col[|col| - 1].Some? && Ahead(asc, col[|col| - 1].value, v) then 1 else 0)
  }

  /** The number of present values of col equal to v. */
  function CountEqual(col: seq<Option<real>>, v: real): nat
    decreases |col|
  {
    if col == [] then 0
    else CountEqual(col[..|col| - 1], v) + (if col[|col| - 1] == Some(v) then 1 else 0)
  }

  /** The number of present values of col that v places strictly ahead of. */
  function CountBehind(asc: bool, col: seq<Option<real>>, v: real): nat
    decreases |col|
  {
    if col == [] then 0
    else CountBehind(asc, col[..|col| - 1], v) +
         (if col[|col| - 1].Some? && Ahead(asc, v, col[|col| - 1].value) then 1 else 0)
  }

  /**
   * The "average" rank of v in col: the values ahead of v, then the mean of
   * the positions the values equal to v share (v itself among them).
   */
  function AverageRank(asc: bool, col: seq<Option<real>>, v: real): real
  {
    CountAhead(asc, col, v) as real + (CountEqual(col, v) + 1) as real / 2.0
  }

  /** The rank within col of every entry of t; a missing entry gets a missing rank. */
  function RanksOf(asc: bool, t: seq<Option<real>>, col: seq<Option<real>>): seq<Option<real>>
  {
    seq(|t|, i requires 0 <= i < |t| => if t[i].Some? then Some(AverageRank(asc, col, t[i].value)) else None)
  }

  /** `col.rank(ascending=asc)` */
  function RankColumn(asc: bool, col: seq<Option<real>>): seq<Option<real>>
  {
    RanksOf(asc, col, col)
  }

  /** The sum of the present entries (pandas' `sum`, which skips missing values). */
  function SumPresent(r: seq<Option<real>>): real
    decreases |r|
  {
    if r == [] then 0.0 else SumPresent(r[..|r| - 1]) + (if r[|r| - 1].Some? then r[|r| - 1].value else 0.0)
  }

  // ------------------------------------------------------------- counting

  /** Every present value is ahead of v, equal to it, or behind it. */
  lemma {:induction false} Trichotomy(asc: bool, col: seq<Option<real>>, v: real)
    ensures CountAhead(asc, col, v) + CountEqual(col, v) + CountBehind(asc, col, v) == Present(col)
    decreases |col|
  {
    if col != [] { Trichotomy(asc, col[..|col| - 1], v); }
  }

  /** A value that occurs is equal to at least one entry: itself. */
  lemma {:induction false} CountEqualOccurs(col: seq<Option<real>>, i: nat)
    requires i < |col| && col[i].Some?
    ensures CountEqual(col, col[i].value) >= 1
    decreases |col|
  {
    if i < |col| - 1 {
      assert col[..|col| - 1][i] == col[i];
      CountEqualOccurs(col[..|col| - 1], i);
    }
  }

  /** Twice the rank, less one, as a sum over the column of per-entry weights. */
  function Weight(asc: bool, y: Option<real>, v: real): nat
  {
    if y.None? then 0 else if Ahead(asc, y.value, v) then 2 else if y.value == v then 1 else 0
  }

  function WeightSum(asc: bool, col: seq<Option<real>>, v: real): nat
    decreases |col|
  {
    if col == [] then 0 else WeightSum(asc, col[..|col| - 1], v) + Weight(asc, col[|col| - 1], v)
  }

  lemma {:induction false} WeightSumCounts(asc: bool, col: seq<Option<real>>, v: real)
    ensures WeightSum(asc, col, v) == 2 * CountAhead(asc, col, v) + CountEqual(col, v)
    decreases |col|
  {
    if col != [] { WeightSumCounts(asc, col[..|col| - 1], v); }
  }

  /** Entry-by-entry lighter weights give a lighter sum, strictly so if one entry is strictly lighter. */
  lemma {:induction false} WeightSumPointwise(asc: bool, c1: seq<Option<real>>, v1: real, c2: seq<Option<real>>, v2: real)
    requires |c1| == |c2|
    requires forall j :: 0 <= j < |c1| ==> Weight(asc, c1[j], v1) <= Weight(asc, c2[j], v2)
    ensures WeightSum(asc, c1, v1) <= WeightSum(asc, c2, v2)
    ensures (exists k :: 0 <= k < |c1| && Weight(asc, c1[k], v1) < Weight(asc, c2[k], v2)) ==>
            WeightSum(asc, c1, v1) < WeightSum(asc, c2, v2)
    decreases |c1|
  {
    if c1 != [] {
      var n := |c1| - 1;
      assert forall j :: 0 <= j < n ==> c1[..n][j] == c1[j] && c2[..n][j] == c2[j];
      WeightSumPointwise(asc, c1[..n], v1, c2[..n], v2);
      if exists k :: 0 <= k < |c1| && Weight(asc, c1[k], v1) < Weight(asc, c2[k], v2) {
        var k :| 0 <= k < |c1| && Weight(asc, c1[k], v1) < Weight(asc, c2[k], v2);
        if k < n { assert c1[..n][k] == c1[k] && c2[..n][k] == c2[k]; }
      }
    }
  }

  /** The rank in terms of the weight sum. */
  lemma AverageRankWeight(asc: bool, col: seq<Option<real>>, v: real)
    ensures 2.0 * AverageRank(asc, col, v) == (WeightSum(asc, col, v) + 1) as real
  {
    WeightSumCounts(asc, col, v);
  }

  // --------------------------------------------------------------- bounds

  /** A present value's rank lies between 1 and the number of present values. */
  lemma RankBounds(asc: bool, col: seq<Option<real>>, i: nat)
    requires i < |col| && col[i].Some?
    ensures |RankColumn(asc, col)| == |col|
    ensures RankColumn(asc, col)[i].Some?
    ensures 1.0 <= RankColumn(asc, col)[i].value <= Present(col) as real
  {
    Trichotomy(asc, col, col[i].value);
    CountEqualOccurs(col, i);
  }

  /** A missing value gets a missing rank. */
  lemma RankMissing(asc: bool, col: seq<Option<real>>, i: nat)
    requires i < |col| && col[i].None?
    ensures RankColumn(asc, col)[i].None?
  {
  }

  // ----------------------------------------------------------------- sums

  /** Twice the summed weights of the pairs (entry of t, entry of s). */
  function PairScore(asc: bool, t: seq<Option<real>>, s: seq<Option<real>>): nat
    decreases |t|
  {
    if t == [] then 0
    else PairScore(asc, t[..|t| - 1], s) + (if t[|t| - 1].Some? then WeightSum(asc, s, t[|t| - 1].value) else 0)
  }

  lemma {:induction false} PairScoreExtend(asc: bool, t: seq<Option<real>>, s: seq<Option<real>>, y: Option<real>)
    ensures y.None? ==> PairScore(asc, t, s + [y]) == PairScore(asc, t, s)
    ensures y.Some? ==>
      PairScore(asc, t, s + [y]) == PairScore(asc, t, s) + 2 * CountBehind(asc, t, y.value) + CountEqual(t, y.value)
    decreases |t|
  {
    assert (s + [y])[..|s|] == s;
    if t != [] { PairScoreExtend(asc, t[..|t| - 1], s, y); }
  }

  /** The weight sum of a present last entry against the whole column: its own weight is 1. */
  lemma LastWeight(asc: bool, s': seq<Option<real>>, x: real)
    ensures WeightSum(asc, s' + [Some(x)], x) == 2 * CountAhead(asc, s', x) + CountEqual(s', x) + 1
  {
    assert (s' + [Some(x)])[..|s'|] == s';
    WeightSumCounts(asc, s', x);
  }

  lemma Square(n: nat)
    ensures (n + 1) * (n + 1) == n * n + 2 * n + 1
  {
  }

  /** Summed over every pair of present values, the weights give n * n. */
  lemma {:induction false} PairScoreSelf(asc: bool, s: seq<Option<real>>)
    ensures PairScore(asc, s, s) == Present(s) * Present(s)
    decreases |s|
  {
    if s != [] {
      var s' := s[..|s| - 1];
      var y := s[|s| - 1];
      assert s == s' + [y];
      PairScoreSelf(asc, s');
      PairScoreExtend(asc, s', s', y);
      var n := Present(s');
      if y.Some? {
        var x := y.value;
        LastWeight(asc, s', x);
        Trichotomy(asc, s', x);
        Square(n);
        var ahead, equal, behind := CountAhead(asc, s', x), CountEqual(s', x), CountBehind(asc, s', x);
        assert PairScore(asc, s, s) == PairScore(asc, s', s) + WeightSum(asc, s, x);
        assert PairScore(asc, s', s) == n * n + 2 * behind + equal;
        assert WeightSum(asc, s, x) == 2 * ahead + equal + 1;
      }
    }
  }

  lemma {:induction false} RankSumOver(asc: bool, t: seq<Option<real>>, col: seq<Option<real>>)
    ensures 2.0 * SumPresent(RanksOf(asc, t, col)) == (PairScore(asc, t, col) + Present(t)) as real
    decreases |t|
  {
    if t != [] {
      var t' := t[..|t| - 1];
      assert RanksOf(asc, t, col)[..|t| - 1] == RanksOf(asc, t', col);
      RankSumOver(asc, t', col);
      if t[|t| - 1].Some? { AverageRankWeight(asc, col, t[|t| - 1].value); }
    }
  }

  /** The ranks of the n present values sum to n(n+1)/2, as positions 1..n do. */
  lemma RankSum(asc: bool, col: seq<Option<real>>)
    ensures SumPresent(RankColumn(asc, col)) == (Present(col) * (Present(col) + 1)) as real / 2.0
  {
    RankSumOver(asc, col, col);
    PairScoreSelf(asc, col);
    var n := Present(col);
    assert n * (n + 1) == n * n + n;
  }

  // ---------------------------------------------------------------- order

  /** A value ahead of another gets the smaller rank, equal values get equal ranks, and only so. */
  lemma RankFollowsOrder(asc: bool, col: seq<Option<real>>, i: nat, j: nat)
    requires i < |col| && j < |col| && col[i].Some? && col[j].Some?
    ensures |RankColumn(asc, col)| == |col|
    ensures RankColumn(asc, col)[i].value < RankColumn(asc, col)[j].value <==>
            Ahead(asc, col[i].value, col[j].value)
    ensures RankColumn(asc, col)[i].value == RankColumn(asc, col)[j].value <==>
            col[i].value == col[j].value
  {
    var vi, vj := col[i].value, col[j].value;
    AverageRankWeight(asc, col, vi);
    AverageRankWeight(asc, col, vj);
    if Ahead(asc, vi, vj) {
      RankAheadStrict(asc, col, i, j);
    } else if Ahead(asc, vj, vi) {
      RankAheadStrict(asc, col, j, i);
    } else {
      assert vi == vj;
    }
  }

  lemma RankAheadStrict(asc: bool, col: seq<Option<real>>, i: nat, j: nat)
    requires i < |col| && j < |col| && col[i].Some? && col[j].Some?
    requires Ahead(asc, col[i].value, col[j].value)
    ensures WeightSum(asc, col, col[i].value) < WeightSum(asc, col, col[j].value)
  {
    var vi, vj := col[i].value, col[j].value;
    forall k | 0 <= k < |col| ensures Weight(asc, col[k], vi) <= Weight(asc, col[k], vj) { }
    assert Weight(asc, col[i], vi) < Weight(asc, col[i], vj);
    WeightSumPointwise(asc, col, vi, col, vj);
  }

  /**
   * Moving one team's value ahead (lower for an ascending column, higher
   * otherwise) never worsens that team's rank.
   */
  lemma RankImproves(asc: bool, col: seq<Option<real>>, i: nat, v': real)
    requires i < |col| && col[i].Some?
    requires Ahead(asc, v', col[i].value) || v' == col[i].value
    ensures |RankColumn(asc, col[i := Some(v')])| == |col|
    ensures RankColumn(asc, col[i := Some(v')])[i].value <= RankColumn(asc, col)[i].value
  {
    var v := col[i].value;
    var col' := col[i := Some(v')];
    forall k | 0 <= k < |col| ensures Weight(asc, col'[k], v') <= Weight(asc, col[k], v) { }
    WeightSumPointwise(asc, col', v', col, v);
    AverageRankWeight(asc, col', v');
    AverageRankWeight(asc, col, v);
  }

  /** Turnovers {10, 8, 8} ranked ascending give {3, 1.5, 1.5}. */
  lemma TurnoverTieExample()
    ensures RankColumn(true, [Some(10.0), Some(8.0), Some(8.0)]) == [Some(3.0), Some(1.5), Some(1.5)]
  {
    var col: seq<Option<real>> := [Some(10.0), Some(8.0), Some(8.0)];
    assert col[..2] == [Some(10.0), Some(8.0)] && col[..2][..1] == [Some(10.0)];
    assert CountAhead(true, col[..2][..1], 10.0) == 0 && CountEqual(col[..2][..1], 10.0) == 1;
    assert CountAhead(true, col[..2], 10.0) == 1 && CountEqual(col[..2], 10.0) == 1;
    assert CountAhead(true, col, 10.0) == 2 && CountEqual(col, 10.0) == 1;
    assert CountAhead(true, col[..2][..1], 8.0) == 0 && CountEqual(col[..2][..1], 8.0) == 0;
    assert CountAhead(true, col[..2], 8.0) == 0 && CountEqual(col[..2], 8.0) == 1;
    assert CountAhead(true, col, 8.0) == 0 && CountEqual(col, 8.0) == 2;
  }

  // ------------------------------------------------------------ min rank

  /** The test "strictly below x". */
  function Below(x: real): real -> bool
  {
    (y: real) => y < x
  }

  /** The number of entries of xs strictly below x. */
  function CountBelow(xs: seq<real>, x: real): nat
  {
    Seqs.CountWhere(xs, Below(x))
  }

  /** `xs.rank(ascending=True, method='min')` at value x: one more than the entries strictly below. */
  function MinRank(xs: seq<real>, x: real): nat
  {
    1 + CountBelow(xs, x)
  }

  /** A value of xs gets a min rank between 1 and |xs|; the least value gets 1. */
  lemma MinRankBounds(xs: seq<real>, k: nat)
    requires k < |xs|
    ensures 1 <= MinRank(xs, xs[k]) <= |xs|
    ensures (forall j :: 0 <= j < |xs| ==> xs[k] <= xs[j]) ==> MinRank(xs, xs[k]) == 1
  {
    Seqs.CountWhereMiss(xs, Below(xs[k]), k);
    if forall j :: 0 <= j < |xs| ==> xs[k] <= xs[j] {
      MinRankNoneBelow(xs, xs[k]);
    }
  }

  lemma {:induction false} MinRankNoneBelow(xs: seq<real>, x: real)
    requires forall j :: 0 <= j < |xs| ==> x <= xs[j]
    ensures CountBelow(xs, x) == 0
    decreases |xs|
  {
    if xs != [] {
      MinRankNoneBelow(xs[..|xs| - 1], x);
    }
  }

  /** Min ranks order as the values do: strictly smaller value, strictly smaller rank; equal values share it. */
  lemma MinRankOrder(xs: seq<real>, i: nat, j: nat)
    requires i < |xs| && j < |xs|
    ensures MinRank(xs, xs[i]) < MinRank(xs, xs[j]) <==> xs[i] < xs[j]
    ensures MinRank(xs, xs[i]) == MinRank(xs, xs[j]) <==> xs[i] == xs[j]
  {
    if xs[i] < xs[j] {
      Seqs.CountWhereMono(xs, Below(xs[i]), Below(xs[j]));
      assert xs[i] < xs[j] && !(xs[i] < xs[i]);
    } else if xs[j] < xs[i] {
      Seqs.CountWhereMono(xs, Below(xs[j]), Below(xs[i]));
      assert xs[j] < xs[i] && !(xs[j] < xs[j]);
    }
  }
}
