/**
 * One week's league table (logic.py:90-187) and the season table
 * (logic.py:189-193): the flattened team records are coerced to numbers,
 * ranked in each of the nine scoring categories, given an aggregate and an
 * adjusted rank, and sorted by the adjusted rank.
 */
module Weekly {
  import opened Wrappers
  import opened PyJson
  import opened Flatten
  import opened Ranking
  import Seqs

  /** The nine scoring categories: every slot but the made/attempted pairs. */
  type Category = l: Label | l != FGMA && l != FTMA witness FGPct

  /** `stat_categories` (logic.py:166), in column order. */
  const Categories: seq<Category> := [FGPct, FTPct, Threes, Pts, Reb, Ast, Stl, Blk, TO]

  /** Turnovers rank ascending (fewer is better); every other category descending. */
  predicate Ascending(c: Category)
  {
    c == TO
  }

  /**
   * `pd.to_numeric(..., errors='coerce')` on one cell: a missing value or a
   * JSON null is missing, a JSON number is itself, and any other value is
   * read by `parse`, which yields None where pandas coerces to NaN.
   */
  function Numeric(v: Option<Json>, parse: Json -> Option<real>): (r: Option<real>)
    ensures v.None? || v == Some(JNull) ==> r.None?
    ensures v.Some? && v.value.JNum? ==> r == Some(v.value.n)
    ensures v.Some? && !v.value.JNull? && !v.value.JNum? ==> r == parse(v.value)
  {
    match v
    case None => None
    case Some(JNull) => None
    case Some(JNum(n)) => Some(n)
    case Some(x) => parse(x)
  }

  /** One row of the week's frame after the numeric coercion of logic.py:160-164. */
  datatype Row = Row(
    week: Option<real>,
    teamKey: Option<Json>,
    teamId: Option<real>,
    name: Option<Json>,
    remainingGames: Option<real>,
    liveGames: Option<real>,
    completedGames: Option<real>,
    fgma: Option<Json>,
    ftma: Option<Json>,
    stats: map<Category, real>)

  /** The value of a category in a row; absent from `stats` means NaN. */
  function Value(row: Row, c: Category): Option<real>
  {
    if c in row.stats then Some(row.stats[c]) else None
  }

  function Slot(rec: TeamRecord, l: Label): Option<Json>
  {
    if l in rec.stats then Some(rec.stats[l]) else None
  }

  function Coerce(rec: TeamRecord, parse: Json -> Option<real>): Row
  {
    Row(Numeric(rec.week, parse), rec.teamKey, Numeric(rec.teamId, parse), rec.name,
        Numeric(rec.remainingGames, parse), Numeric(rec.liveGames, parse), Numeric(rec.completedGames, parse),
        Slot(rec, FGMA), Slot(rec, FTMA),
        map c: Category | c in rec.stats && Numeric(Some(rec.stats[c]), parse).Some? ::
          Numeric(Some(rec.stats[c]), parse).value)
  }

  /** Each category value is the coerced slot; a slot never written stays missing. */
  lemma CoerceSlot(rec: TeamRecord, parse: Json -> Option<real>, c: Category)
    ensures Value(Coerce(rec, parse), c) == Numeric(Slot(rec, c), parse)
    ensures c !in rec.stats ==> Value(Coerce(rec, parse), c).None?
  {
  }

  function CoerceAll(recs: seq<TeamRecord>, parse: Json -> Option<real>): (rows: seq<Row>)
    ensures |rows| == |recs|
  {
    seq(|recs|, i requires 0 <= i < |recs| => Coerce(recs[i], parse))
  }

  /** The column of one category, row by row. */
  function Column(rows: seq<Row>, c: Category): (col: seq<Option<real>>)
    ensures |col| == |rows|
  {
    seq(|rows|, i requires 0 <= i < |rows| => Value(rows[i], c))
  }

  // -------------------------------------------------------------- ranking

  /** The nine rank columns `FG%_Rank` .. `TO_Rank` (logic.py:169-173). */
  function RankColumns(rows: seq<Row>): (cols: seq<seq<Option<real>>>)
    ensures |cols| == |Categories|
    ensures forall k :: 0 <= k < |cols| ==> |cols[k]| == |rows|
  {
    seq(|Categories|, k requires 0 <= k < |Categories| =>
      RankColumn(Ascending(Categories[k]), Column(rows, Categories[k])))
  }

  /** The loop of logic.py:169-173, adding one rank column per category. */
  method AddRankColumns(rows: seq<Row>) returns (cols: seq<seq<Option<real>>>)
    ensures cols == RankColumns(rows)
  {
    cols := [];
    var k := 0;
    while k < |Categories|
      invariant 0 <= k <= |Categories|
      invariant |cols| == k
      invariant forall j :: 0 <= j < k ==> cols[j] == RankColumn(Ascending(Categories[j]), Column(rows, Categories[j]))
    {
      var c := Categories[k];
      cols := cols + [RankColumn(Ascending(c), Column(rows, c))];
      k := k + 1;
    }
  }

  /** Row i's entries of the given columns. */
  function RowOf(cols: seq<seq<Option<real>>>, i: nat): (r: seq<Option<real>>)
    requires forall k :: 0 <= k < |cols| ==> i < |cols[k]|
    ensures |r| == |cols|
  {
    seq(|cols|, k requires 0 <= k < |cols| => cols[k][i])
  }

  /** `Aggregate Rank` (logic.py:176): each row's sum of its present ranks. */
  function Aggregates(cols: seq<seq<Option<real>>>, n: nat): (aggs: seq<real>)
    requires forall k :: 0 <= k < |cols| ==> |cols[k]| == n
    ensures |aggs| == n
  {
    seq(n, i requires 0 <= i < n => SumPresent(RowOf(cols, i)))
  }

  /** A row with its nine ranks, its aggregate and its adjusted rank. */
  datatype RankedRow = RankedRow(row: Row, ranks: seq<Option<real>>, aggregate: real, adjustedRank: int)

  /** The frame after logic.py:169-182, in the row order of the records. */
  function Ranked(rows: seq<Row>): (r: seq<RankedRow>)
    ensures |r| == |rows|
  {
    var cols := RankColumns(rows);
    var aggs := Aggregates(cols, |rows|);
    seq(|rows|, i requires 0 <= i < |rows| => RankedRow(rows[i], RowOf(cols, i), aggs[i], MinRank(aggs, aggs[i])))
  }

  function AdjustedKey(r: RankedRow): int
  {
    r.adjustedRank
  }

  /** `result.sort_values(by='Adjusted_Rank')`; the order among equal ranks is not promised. */
  function SortByAdjusted(rs: seq<RankedRow>): seq<RankedRow>
  {
    Seqs.SortByKey(rs, AdjustedKey)
  }

  /** The week's table built from its records; `pd.concat` of no records raises ValueError. */
  function TableOf(recs: seq<TeamRecord>, parse: Json -> Option<real>): Py<seq<RankedRow>>
  {
    if recs == [] then Failure(ValueError) else Success(SortByAdjusted(Ranked(CoerceAll(recs, parse))))
  }

  /** `overall_weekly_matchup_stats` on the decoded response of one week. */
  function WeeklyTable(response: Json, parse: Json -> Option<real>): Py<seq<RankedRow>>
  {
    var ms :- MatchupsOf(response);
    var keys :- DictKeys(ms);
    var teams :- Teams(ms, keys);
    var recs :- Records(teams);
    TableOf(recs, parse)
  }

  method WeeklyStats(response: Json, parse: Json -> Option<real>) returns (r: Py<seq<RankedRow>>)
    ensures r == WeeklyTable(response, parse)
  {
    var ms := MatchupsOf(response);
    if ms.Failure? { return Failure(ms.error); }
    var keys := DictKeys(ms.value);
    if keys.Failure? { return Failure(keys.error); }
    var teams := ExtractTeams(ms.value, keys.value);
    if teams.Failure? { return Failure(teams.error); }
    var recs := FlattenTeams(teams.value);
    if recs.Failure? { return Failure(recs.error); }
    if recs.value == [] { return Failure(ValueError); }
    var rows := CoerceAll(recs.value, parse);
    var cols := AddRankColumns(rows);
    var aggs := Aggregates(cols, |rows|);
    var ranked := seq(|rows|, i requires 0 <= i < |rows| => RankedRow(rows[i], RowOf(cols, i), aggs[i], MinRank(aggs, aggs[i])));
    return Success(SortByAdjusted(ranked));
  }

  // ------------------------------------------------ properties of a week

  /** Two rows per matchup key other than 'count', or an error; never an empty table. */
  lemma WeeklySize(response: Json, parse: Json -> Option<real>)
    requires WeeklyTable(response, parse).Success?
    ensures MatchupsOf(response).Success? && DictKeys(MatchupsOf(response).value).Success?
    ensures |WeeklyTable(response, parse).value| ==
            2 * |NonCount(DictKeys(MatchupsOf(response).value).value)| > 0
  {
    var ms := MatchupsOf(response).value;
    var keys := DictKeys(ms).value;
    TeamsFromShape(ms, [], keys);
    var teams := Teams(ms, keys).value;
    RecordsFromShape([], teams);
  }

  /** The table is the ranked rows, reordered so that Adjusted_Rank never decreases. */
  lemma TableSorted(recs: seq<TeamRecord>, parse: Json -> Option<real>)
    ensures TableOf(recs, parse).Success? <==> recs != []
    ensures TableOf(recs, parse).Success? ==>
      var t := TableOf(recs, parse).value;
      && multiset(t) == multiset(Ranked(CoerceAll(recs, parse)))
      && forall i, j :: 0 <= i < j < |t| ==> t[i].adjustedRank <= t[j].adjustedRank
  {
  }

  /** A present value's rank in its category lies in [1, N] for the N present values; NaN stays NaN. */
  lemma CategoryRank(rows: seq<Row>, i: nat, k: nat)
    requires i < |rows| && k < |Categories|
    ensures |Ranked(rows)[i].ranks| == |Categories|
    ensures Value(rows[i], Categories[k]).None? <==> Ranked(rows)[i].ranks[k].None?
    ensures Value(rows[i], Categories[k]).Some? ==>
      var col := Column(rows, Categories[k]);
      && Ranked(rows)[i].ranks[k] == Some(AverageRank(Ascending(Categories[k]), col, Value(rows[i], Categories[k]).value))
      && 1.0 <= Ranked(rows)[i].ranks[k].value <= Present(col) as real
  {
    var c := Categories[k];
    var col := Column(rows, c);
    assert col[i] == Value(rows[i], c);
    if col[i].Some? { RankBounds(Ascending(c), col, i); }
  }

  /** The row with a category value changed, everything else kept. */
  function WithValue(rows: seq<Row>, i: nat, c: Category, v: real): seq<Row>
    requires i < |rows|
  {
    rows[i := rows[i].(stats := rows[i].stats[c := v])]
  }

  /**
   * Fewer turnovers never worsen a team's turnover rank, and more of any
   * other category never worsens that category's rank.
   */
  lemma BetterValueBetterRank(rows: seq<Row>, i: nat, k: nat, v': real)
    requires i < |rows| && k < |Categories| && Value(rows[i], Categories[k]).Some?
    requires Categories[k] == TO ==> v' <= Value(rows[i], Categories[k]).value
    requires Categories[k] != TO ==> v' >= Value(rows[i], Categories[k]).value
    ensures |Ranked(WithValue(rows, i, Categories[k], v'))| == |rows|
    ensures Ranked(WithValue(rows, i, Categories[k], v'))[i].ranks[k].value <= Ranked(rows)[i].ranks[k].value
  {
    var c := Categories[k];
    var rows' := WithValue(rows, i, c, v');
    var col := Column(rows, c);
    assert Column(rows', c) == col[i := Some(v')];
    CategoryRank(rows, i, k);
    CategoryRank(rows', i, k);
    RankImproves(Ascending(c), col, i, v');
  }

  /** An aggregate is the sum of the row's nine present ranks, in column order. */
  lemma AggregateIsRankSum(rows: seq<Row>, i: nat)
    requires i < |rows|
    ensures Ranked(rows)[i].aggregate == SumPresent(Ranked(rows)[i].ranks)
    ensures |Ranked(rows)[i].ranks| == |Categories|
    ensures forall k :: 0 <= k < |Categories| ==>
      Ranked(rows)[i].ranks[k] == RankColumn(Ascending(Categories[k]), Column(rows, Categories[k]))[i]
  {
  }

  /** Equal aggregates share an adjusted rank, a strictly smaller aggregate has a strictly smaller one, and the least aggregate ranks 1. */
  lemma AdjustedRankOrder(rows: seq<Row>, i: nat, j: nat)
    requires i < |rows| && j < |rows|
    ensures var r := Ranked(rows);
      && (r[i].adjustedRank == r[j].adjustedRank <==> r[i].aggregate == r[j].aggregate)
      && (r[i].adjustedRank < r[j].adjustedRank <==> r[i].aggregate < r[j].aggregate)
      && 1 <= r[i].adjustedRank <= |rows|
      && ((forall m :: 0 <= m < |rows| ==> r[i].aggregate <= r[m].aggregate) ==> r[i].adjustedRank == 1)
  {
    var r := Ranked(rows);
    var aggs := Aggregates(RankColumns(rows), |rows|);
    MinRankOrder(aggs, i, j);
    MinRankBounds(aggs, i);
    if forall m :: 0 <= m < |rows| ==> r[i].aggregate <= r[m].aggregate {
      assert forall m :: 0 <= m < |aggs| ==> aggs[m] == r[m].aggregate;
    }
  }

  /** The test "aggregate strictly below a". */
  function AggregateBelow(a: real): RankedRow -> bool
  {
    (r: RankedRow) => r.aggregate < a
  }

  /** Before sorting: Adjusted_Rank is one more than the number of rows with a strictly smaller aggregate. */
  lemma AdjustedRankCountsRanked(rows: seq<Row>, i: nat)
    requires i < |rows|
    ensures Ranked(rows)[i].adjustedRank == 1 + Seqs.CountWhere(Ranked(rows), AggregateBelow(Ranked(rows)[i].aggregate))
  {
    var ranked := Ranked(rows);
    var aggs := Aggregates(RankColumns(rows), |rows|);
    var a := aggs[i];
    assert ranked[i].adjustedRank == 1 + Seqs.CountWhere(aggs, Below(a));
    Seqs.CountWhereProject(ranked, AggregateBelow(a), aggs, Below(a));
  }

  /**
   * In the returned table, every row's Adjusted_Rank is one more than the
   * number of rows of the table whose aggregate is strictly smaller.
   */
  lemma AdjustedRankCounts(recs: seq<TeamRecord>, parse: Json -> Option<real>, x: RankedRow)
    requires TableOf(recs, parse).Success? && x in TableOf(recs, parse).value
    ensures x.adjustedRank == 1 + Seqs.CountWhere(TableOf(recs, parse).value, AggregateBelow(x.aggregate))
  {
    var rows := CoerceAll(recs, parse);
    var ranked := Ranked(rows);
    var t := TableOf(recs, parse).value;
    assert t == SortByAdjusted(ranked);
    assert multiset(t) == multiset(ranked);
    assert x in multiset(ranked);
    var i :| 0 <= i < |ranked| && ranked[i] == x;
    AdjustedRankCountsRanked(rows, i);
    Seqs.CountWherePermutation(ranked, t, AggregateBelow(x.aggregate));
  }

  // ----------------------------------------------------- the rank totals

  function Total(xs: seq<real>): real
    decreases |xs|
  {
    if xs == [] then 0.0 else Total(xs[..|xs| - 1]) + xs[|xs| - 1]
  }

  function ValueOr0(o: Option<real>): real
  {
    if o.Some? then o.value else 0.0
  }

  lemma {:induction false} TotalPointwiseSum(a: seq<real>, b: seq<real>)
    requires |a| == |b|
    ensures Total(seq(|a|, i requires 0 <= i < |a| => a[i] + b[i])) == Total(a) + Total(b)
    decreases |a|
  {
    if a != [] {
      var n := |a| - 1;
      var s := seq(|a|, i requires 0 <= i < |a| => a[i] + b[i]);
      assert s[..n] == seq(n, i requires 0 <= i < n => a[..n][i] + b[..n][i]);
      TotalPointwiseSum(a[..n], b[..n]);
    }
  }

  lemma {:induction false} SumPresentTotal(c: seq<Option<real>>)
    ensures SumPresent(c) == Total(seq(|c|, i requires 0 <= i < |c| => ValueOr0(c[i])))
    decreases |c|
  {
    if c != [] {
      var n := |c| - 1;
      assert seq(|c|, i requires 0 <= i < |c| => ValueOr0(c[i]))[..n] == seq(n, i requires 0 <= i < n => ValueOr0(c[..n][i]));
      SumPresentTotal(c[..n]);
    }
  }

  /** Summing every row's ranks or every column's ranks gives the same total. */
  lemma {:induction false} RowsColumnsTotal(cols: seq<seq<Option<real>>>, n: nat)
    requires forall k :: 0 <= k < |cols| ==> |cols[k]| == n
    ensures Total(Aggregates(cols, n)) == Total(seq(|cols|, k requires 0 <= k < |cols| => SumPresent(cols[k])))
    decreases |cols|
  {
    var colTotals := seq(|cols|, k requires 0 <= k < |cols| => SumPresent(cols[k]));
    if cols == [] {
      ZeroTotal(n);
      assert Aggregates(cols, n) == seq(n, i requires 0 <= i < n => 0.0);
    } else {
      var m := |cols| - 1;
      var front := cols[..m];
      var last := cols[m];
      RowsColumnsTotal(front, n);
      var a := Aggregates(front, n);
      var b := seq(n, i requires 0 <= i < n => ValueOr0(last[i]));
      forall i | 0 <= i < n ensures Aggregates(cols, n)[i] == a[i] + b[i] {
        assert RowOf(cols, i)[..m] == RowOf(front, i);
      }
      assert Aggregates(cols, n) == seq(n, i requires 0 <= i < n => a[i] + b[i]);
      TotalPointwiseSum(a, b);
      SumPresentTotal(last);
      assert colTotals[..m] == seq(|front|, k requires 0 <= k < |front| => SumPresent(front[k]));
    }
  }

  lemma {:induction false} ZeroTotal(n: nat)
    ensures Total(seq(n, i requires 0 <= i < n => 0.0)) == 0.0
    decreases n
  {
    if n > 0 {
      assert seq(n, i requires 0 <= i < n => 0.0)[..n - 1] == seq(n - 1, i requires 0 <= i < n - 1 => 0.0);
      ZeroTotal(n - 1);
    }
  }

  /** N(N+1)/2 for a category with N present values. */
  function Triangle(n: nat): real
  {
    (n * (n + 1)) as real / 2.0
  }

  /** The aggregates of a week add up to the sum over the categories of N(N+1)/2. */
  lemma AggregateTotal(rows: seq<Row>)
    ensures Total(seq(|rows|, i requires 0 <= i < |rows| => Ranked(rows)[i].aggregate)) ==
            Total(seq(|Categories|, k requires 0 <= k < |Categories| => Triangle(Present(Column(rows, Categories[k])))))
  {
    var cols := RankColumns(rows);
    RowsColumnsTotal(cols, |rows|);
    RankedAggregates(rows);
    ColumnTotals(rows);
  }

  /** The aggregate column of the ranked table is the row-wise sum of the rank columns. */
  lemma RankedAggregates(rows: seq<Row>)
    ensures seq(|rows|, i requires 0 <= i < |rows| => Ranked(rows)[i].aggregate) == Aggregates(RankColumns(rows), |rows|)
  {
  }

  /** Each rank column sums to the triangle number of its present values. */
  lemma ColumnTotals(rows: seq<Row>)
    ensures var cols := RankColumns(rows);
      seq(|cols|, k requires 0 <= k < |cols| => SumPresent(cols[k])) ==
      seq(|Categories|, k requires 0 <= k < |Categories| => Triangle(Present(Column(rows, Categories[k]))))
  {
    var cols := RankColumns(rows);
    forall k | 0 <= k < |Categories|
      ensures SumPresent(cols[k]) == Triangle(Present(Column(rows, Categories[k])))
    {
      RankSum(Ascending(Categories[k]), Column(rows, Categories[k]));
    }
  }


  // --------------------------------------------------------------- season

  /** A list of computations in order, stopping at the first error (the comprehension of logic.py:191). */
  function Collect<T>(results: seq<Py<T>>): Py<seq<T>>
    decreases |results|
  {
    if results == [] then Success([])
    else
      var t :- results[0];
      var rest :- Collect(results[1..]);
      Success([t] + rest)
  }

  /** All the results, or the first error. */
  lemma {:induction false} CollectShape<T>(results: seq<Py<T>>)
    ensures Collect(results).Success? <==> forall w :: 0 <= w < |results| ==> results[w].Success?
    ensures Collect(results).Success? ==>
      && |Collect(results).value| == |results|
      && forall w :: 0 <= w < |results| ==> Collect(results).value[w] == results[w].value
    ensures Collect(results).Failure? ==>
      exists w :: 0 <= w < |results| && results[w].Failure? && Collect(results).error == results[w].error &&
        forall v :: 0 <= v < w ==> results[v].Success?
    decreases |results|
  {
    if results != [] {
      CollectShape(results[1..]);
      assert forall w :: 0 < w < |results| ==> results[1..][w - 1] == results[w];
      if results[0].Success? && Collect(results[1..]).Failure? {
        var w :| 0 <= w < |results[1..]| && results[1..][w].Failure? && Collect(results[1..]).error == results[1..][w].error &&
          forall v :: 0 <= v < w ==> results[1..][v].Success?;
        assert results[w + 1] == results[1..][w];
        assert forall v :: 0 < v < w + 1 ==> results[v] == results[1..][v - 1];
      }
    }
  }

  function Concat(tables: seq<seq<RankedRow>>): seq<RankedRow>
    decreases |tables|
  {
    if tables == [] then [] else tables[0] + Concat(tables[1..])
  }

  /** The weekly tables of the given responses, in week order. */
  function WeekResults(responses: seq<Json>, parse: Json -> Option<real>): (r: seq<Py<seq<RankedRow>>>)
    ensures |r| == |responses|
    ensures forall w :: 0 <= w < |responses| ==> r[w] == WeeklyTable(responses[w], parse)
  {
    seq(|responses|, w requires 0 <= w < |responses| => WeeklyTable(responses[w], parse))
  }

  /**
   * `get_full_season_stats`: `responses[w]` is the response for week w + 1;
   * `pd.concat` of no weeks raises ValueError.
   */
  function Season(responses: seq<Json>, parse: Json -> Option<real>): Py<seq<RankedRow>>
  {
    var tables :- Collect(WeekResults(responses, parse));
    if tables == [] then Failure(ValueError) else Success(Concat(tables))
  }

  /** The weeks sit one after another, in week order. */
  lemma {:induction false} ConcatBlocks(tables: seq<seq<RankedRow>>, w: nat)
    requires w < |tables|
    ensures Concat(tables[..w]) + tables[w] <= Concat(tables)
    decreases w
  {
    if w == 0 {
      assert tables[..0] == [];
    } else {
      ConcatBlocks(tables[1..], w - 1);
      assert tables[1..][..w - 1] == tables[1..w];
      assert tables[..w] == [tables[0]] + tables[1..w];
      assert Concat(tables[..w]) == tables[0] + Concat(tables[1..w]);
    }
  }

  /** The season exists exactly when there is a week and every week's table does. */
  lemma SeasonSucceeds(responses: seq<Json>, parse: Json -> Option<real>)
    ensures Season(responses, parse).Success? <==>
      |responses| > 0 && forall w :: 0 <= w < |responses| ==> WeeklyTable(responses[w], parse).Success?
  {
    CollectShape(WeekResults(responses, parse));
  }

  /** The season table is week 1's table, then week 2's, and so on. */
  lemma SeasonInWeekOrder(responses: seq<Json>, parse: Json -> Option<real>, w: nat)
    requires Season(responses, parse).Success? && w < |responses|
    ensures WeeklyTable(responses[w], parse).Success?
    ensures |Collect(WeekResults(responses, parse)).value| == |responses|
    ensures var tables := Collect(WeekResults(responses, parse)).value;
      Concat(tables[..w]) + WeeklyTable(responses[w], parse).value <= Season(responses, parse).value
  {
    var results := WeekResults(responses, parse);
    assert Collect(results).Success?;
    CollectedBlock(results, w);
    var tables := Collect(results).value;
    assert Season(responses, parse).value == Concat(tables);
    assert results[w] == WeeklyTable(responses[w], parse);
  }

  lemma CollectedBlock(results: seq<Py<seq<RankedRow>>>, w: nat)
    requires Collect(results).Success? && w < |results|
    ensures results[w].Success? && |Collect(results).value| == |results|
    ensures Concat(Collect(results).value[..w]) + results[w].value <= Concat(Collect(results).value)
  {
    CollectShape(results);
    ConcatBlocks(Collect(results).value, w);
  }

  /** No weeks means no season table. */
  lemma SeasonNeedsAWeek(parse: Json -> Option<real>)
    ensures Season([], parse) == Failure(ValueError)
  {
  }
}
