/**
 * The dashboard's table rules (streamlit.py:45-62, 99-136): column headings
 * are title-cased except the rank and statistic columns, the standings get
 * a `W-L-T` Record column, the statistics table shows one week sorted by
 * Adjusted_Rank, and its columns are trimmed to a fixed display order.
 * Column lists are modelled by their names; a pandas operation that names a
 * column the frame does not have raises KeyError.
 */
module Dashboard {
  import opened Wrappers
  import opened Text
  import opened PyJson
  import Weekly
  import Seqs

  // ------------------------------------------------------ column headings

  /** `col.replace("_", " ").title()` (streamlit.py:45, 48, 60). */
  function Heading(col: string): string
  {
    Title(ReplaceChar(col, '_', ' '))
  }

  /** `exclude_columns` (streamlit.py:51). */
  const ExcludeColumns: seq<string> := ["FG%", "FT%", "3PTM", "PTS", "REB", "AST", "STL", "BLK", "TO"]

  /** `format_col` (streamlit.py:54-60). */
  function FormatCol(col: string): string
  {
    if EndsWith(col, "_Rank") then col
    else if col in ExcludeColumns then col
    else Heading(col)
  }

  /** The headings of a whole header row, in order. */
  function FormatAll(cols: seq<string>): (r: seq<string>)
    ensures |r| == |cols|
    ensures forall i :: 0 <= i < |cols| ==> r[i] == FormatCol(cols[i])
  {
    seq(|cols|, i requires 0 <= i < |cols| => FormatCol(cols[i]))
  }

  /**
   * A heading keeps its length, has no underscore left, and obeys the case
   * rule of `str.title`: no upper-case letter right after a cased one.
   */
  lemma HeadingShape(col: string)
    ensures |Heading(col)| == |col|
    ensures '_' !in Heading(col)
    ensures forall i :: 0 < i < |col| && IsCased(Heading(col)[i - 1]) ==> !IsUpper(Heading(col)[i])
  {
    var t := ReplaceChar(col, '_', ' ');
    ReplaceCharRemoves(col, '_', ' ');
    forall i | 0 <= i < |col| ensures Heading(col)[i] != '_' {
      TitleChar(t, i);
    }
    forall i | 0 < i < |col| && IsCased(Heading(col)[i - 1]) ensures !IsUpper(Heading(col)[i]) {
      TitleNoUpperAfterCased(t, i);
    }
  }

  /** Each name in `exclude_columns` has an upper-case letter right after a cased one. */
  lemma ExcludedHaveInnerCapital(e: string)
    requires e in ExcludeColumns
    ensures exists i :: 0 < i < |e| && IsCased(e[i - 1]) && IsUpper(e[i])
  {
    var i := if e == "3PTM" then 2 else 1;
    assert IsCased(e[i - 1]) && IsUpper(e[i]);
  }

  /** A title-cased heading is never one of the pass-through names. */
  lemma HeadingNotPassThrough(col: string)
    ensures !EndsWith(Heading(col), "_Rank")
    ensures Heading(col) !in ExcludeColumns
  {
    var h := Heading(col);
    HeadingShape(col);
    if |h| >= 5 {
      assert h[|h| - 5..][0] == h[|h| - 5] != '_';
    }
    if h in ExcludeColumns {
      ExcludedHaveInnerCapital(h);
      assert false;
    }
  }

  /** Formatting a formatted heading again changes nothing. */
  lemma FormatColIdempotent(col: string)
    ensures FormatCol(FormatCol(col)) == FormatCol(col)
  {
    if !EndsWith(col, "_Rank") && col !in ExcludeColumns {
      var h := Heading(col);
      HeadingNotPassThrough(col);
      HeadingShape(col);
      ReplaceCharRemoves(h, '_', ' ');
      assert ReplaceChar(h, '_', ' ') == h;
      TitleIdempotent(ReplaceChar(col, '_', ' '));
    }
  }

  /** A column keeps its name exactly when it is a rank column, an excluded statistic, or already a heading. */
  lemma FormatColFixed(col: string)
    ensures FormatCol(col) == col <==> EndsWith(col, "_Rank") || col in ExcludeColumns || Heading(col) == col
  {
  }

  lemma FormatAllConcat(a: seq<string>, b: seq<string>)
    ensures FormatAll(a + b) == FormatAll(a) + FormatAll(b)
  {
  }

  lemma WeekHeading()
    ensures FormatCol("week") == "Week"
  {
    assert Heading("week") == "Week";
  }

  lemma NameHeading()
    ensures FormatCol("name") == "Name"
  {
    assert Heading("name") == "Name";
  }

  lemma TeamKeyHeading()
    ensures FormatCol("team_key") == "Team Key"
  {
    assert Heading("team_key") == "Team Key";
  }

  lemma TeamIdHeading()
    ensures FormatCol("team_id") == "Team Id"
  {
    assert Heading("team_id") == "Team Id";
  }

  lemma RemainingHeading()
    ensures FormatCol("remaining_games") == "Remaining Games"
  {
    assert Heading("remaining_games") == "Remaining Games";
  }

  lemma LiveHeading()
    ensures FormatCol("live_games") == "Live Games"
  {
    assert Heading("live_games") == "Live Games";
  }

  lemma CompletedHeading()
    ensures FormatCol("completed_games") == "Completed Games"
  {
    assert Heading("completed_games") == "Completed Games";
  }

  lemma FieldGoalsMadeAttemptedHeading()
    ensures FormatCol("FGM/A") == "Fgm/A"
  {
    assert Heading("FGM/A") == "Fgm/A";
  }

  lemma FreeThrowsMadeAttemptedHeading()
    ensures FormatCol("FTM/A") == "Ftm/A"
  {
    assert Heading("FTM/A") == "Ftm/A";
  }

  lemma AggregateHeading()
    ensures FormatCol("Aggregate Rank") == "Aggregate Rank"
  {
    assert Heading("Aggregate Rank") == "Aggregate Rank";
  }

  /** The statistic columns and every `_Rank` column pass through `format_col` unchanged. */
  lemma PassThroughHeadings()
    ensures forall k :: 0 <= k < |ExcludeColumns| ==> FormatCol(ExcludeColumns[k]) == ExcludeColumns[k]
    ensures forall k :: 0 <= k < |ExcludeColumns| ==> FormatCol(ExcludeColumns[k] + "_Rank") == ExcludeColumns[k] + "_Rank"
    ensures FormatCol("Adjusted_Rank") == "Adjusted_Rank"
  {
    forall k | 0 <= k < |ExcludeColumns| ensures FormatCol(ExcludeColumns[k] + "_Rank") == ExcludeColumns[k] + "_Rank" {
      var c := ExcludeColumns[k] + "_Rank";
      assert c[|c| - 5..] == "_Rank";
    }
    assert "Adjusted_Rank"[8..] == "_Rank";
  }

  /** The identity and game-count columns of a flattened record (logic.py:112-120). */
  const SnakeColumns: seq<string> :=
    ["week", "team_key", "team_id", "name", "remaining_games", "live_games", "completed_games"]
  /** The statistic columns, in `stat_labels` order (logic.py:31-43). */
  const LabelColumns: seq<string> := ["FGM/A", "FG%", "FTM/A", "FT%", "3PTM", "PTS", "REB", "AST", "STL", "BLK", "TO"]
  /** The category rank columns (logic.py:169-173). */
  const RankColumnNames: seq<string> :=
    ["FG%_Rank", "FT%_Rank", "3PTM_Rank", "PTS_Rank", "REB_Rank", "AST_Rank", "STL_Rank", "BLK_Rank", "TO_Rank"]

  /** The header row of the season table (logic.py:112-182), as written to and read back from CSV. */
  const SeasonColumns: seq<string> := SnakeColumns + LabelColumns + RankColumnNames + ["Aggregate Rank", "Adjusted_Rank"]

  const SnakeHeadingNames: seq<string> :=
    ["Week", "Team Key", "Team Id", "Name", "Remaining Games", "Live Games", "Completed Games"]
  const LabelHeadingNames: seq<string> := ["Fgm/A", "FG%", "Ftm/A", "FT%", "3PTM", "PTS", "REB", "AST", "STL", "BLK", "TO"]

  /** The same header row after `format_col`. */
  const FormattedSeasonColumns: seq<string> :=
    SnakeHeadingNames + LabelHeadingNames + RankColumnNames + ["Aggregate Rank", "Adjusted_Rank"]

  lemma SnakeHeadings()
    ensures FormatAll(SnakeColumns) == SnakeHeadingNames
  {
    WeekHeading();
    TeamKeyHeading();
    TeamIdHeading();
    NameHeading();
    RemainingHeading();
    LiveHeading();
    CompletedHeading();
  }

  lemma LabelHeadings()
    ensures FormatAll(LabelColumns) == LabelHeadingNames
  {
    FieldGoalsMadeAttemptedHeading();
    FreeThrowsMadeAttemptedHeading();
    PassThroughHeadings();
    assert forall k :: 0 <= k < 9 ==> ExcludeColumns[k] in LabelColumns;
  }

  lemma RankHeadings()
    ensures FormatAll(RankColumnNames) == RankColumnNames
  {
    PassThroughHeadings();
    assert forall k :: 0 <= k < 9 ==> RankColumnNames[k] == ExcludeColumns[k] + "_Rank";
  }

  /** `format_col` turns the season table's header row into the dashboard's headings (streamlit.py:62). */
  lemma SeasonHeadings()
    ensures FormatAll(SeasonColumns) == FormattedSeasonColumns
  {
    var last := ["Aggregate Rank", "Adjusted_Rank"];
    FormatAllConcat(SnakeColumns + LabelColumns + RankColumnNames, last);
    FormatAllConcat(SnakeColumns + LabelColumns, RankColumnNames);
    FormatAllConcat(SnakeColumns, LabelColumns);
    SnakeHeadings();
    LabelHeadings();
    RankHeadings();
    AggregateHeading();
    PassThroughHeadings();
    assert FormatAll(last) == last;
  }

  // ------------------------------------------------------------ Record

  /** `Wins.astype(str) + "-" + Losses.astype(str) + "-" + Ties.astype(str)` (streamlit.py:46). */
  function Record(wins: nat, losses: nat, ties: nat): string
  {
    NatToString(wins) + "-" + NatToString(losses) + "-" + NatToString(ties)
  }

  /** In `x + "-" + y` with x all digits, the first non-digit sits right after x. */
  lemma DashAt(x: string, y: string)
    requires AllDigits(x)
    ensures (x + "-" + y)[|x|] == '-'
    ensures forall i :: 0 <= i < |x| ==> IsDigit((x + "-" + y)[i])
  {
    var s := x + "-" + y;
    forall i | 0 <= i < |x| ensures IsDigit(s[i]) { assert s[i] == x[i]; }
  }

  lemma SplitAtDash(x: string, y: string, x': string, y': string)
    requires AllDigits(x) && AllDigits(x')
    requires x + "-" + y == x' + "-" + y'
    ensures x == x'
    ensures y == y'
  {
    var s := x + "-" + y;
    DashAt(x, y);
    DashAt(x', y');
    if |x| == |x'| {
      assert x == s[..|x|] == x';
      assert y == s[|x| + 1..] == y';
    } else {
      assert false;
    }
  }

  /** The Record text determines the wins, losses and ties it was made from. */
  lemma RecordInjective(w: nat, l: nat, t: nat, w': nat, l': nat, t': nat)
    requires Record(w, l, t) == Record(w', l', t')
    ensures w == w' && l == l' && t == t'
  {
    var a, b, c := NatToString(w), NatToString(l), NatToString(t);
    var a', b', c' := NatToString(w'), NatToString(l'), NatToString(t');
    assert Record(w, l, t) == a + "-" + (b + "-" + c);
    assert Record(w', l', t') == a' + "-" + (b' + "-" + c');
    SplitAtDash(a, b + "-" + c, a', b' + "-" + c');
    SplitAtDash(b, c, b', c');
    NatToStringInjective(w, w');
    NatToStringInjective(l, l');
    NatToStringInjective(t, t');
  }

  lemma RecordExample()
    ensures Record(12, 5, 1) == "12-5-1"
  {
    assert NatToString(12) == "12" by { assert NatToString(1) == "1"; }
  }

  // ------------------------------------------------------ column lists

  /** `df[name] = ...`: an existing column is overwritten in place, a new one appended. */
  function AddColumn(cols: seq<string>, name: string): (r: seq<string>)
    ensures name in r
    ensures forall c :: c in r <==> c in cols || c == name
    ensures name in cols ==> r == cols
    ensures |r| == |cols| + (if name in cols then 0 else 1) && r[..|cols|] == cols
  {
    if name in cols then cols else cols + [name]
  }

  /** Reading the named columns raises KeyError unless every one of them exists. */
  function Need(cols: seq<string>, names: seq<string>): Py<seq<string>>
  {
    if forall k :: 0 <= k < |names| ==> names[k] in cols then Success(cols) else Failure(KeyError)
  }

  function NotIn(names: seq<string>): string -> bool
  {
    c => c !in names
  }

  /** `df.drop(columns=names)`: KeyError if a name is not a column, otherwise every column so named goes. */
  function Drop(cols: seq<string>, names: seq<string>): (r: Py<seq<string>>)
    ensures r.Success? <==> forall k :: 0 <= k < |names| ==> names[k] in cols
    ensures r.Success? ==> forall c :: c in r.value <==> c in cols && c !in names
  {
    if forall k :: 0 <= k < |names| ==> names[k] in cols then
      Seqs.FilterContents(cols, NotIn(names));
      Success(Seqs.Filter(cols, NotIn(names)))
    else Failure(KeyError)
  }

  function Named(name: string): string -> bool
  {
    c => c == name
  }

  /** `df[wanted]`: for each wanted name in turn, every column of that name, or KeyError. */
  function Select(cols: seq<string>, wanted: seq<string>): (r: Py<seq<string>>)
    ensures r.Success? <==> forall k :: 0 <= k < |wanted| ==> wanted[k] in cols
    decreases |wanted|
  {
    if wanted == [] then Success([])
    else if wanted[0] !in cols then Failure(KeyError)
    else
      var rest :- Select(cols, wanted[1..]);
      Success(Seqs.Filter(cols, Named(wanted[0])) + rest)
  }

  /** Selecting a name that labels exactly one column yields that one column. */
  lemma {:induction false} NamedDistinct(cols: seq<string>, n: string)
    requires Seqs.Distinct(cols) && n in cols
    ensures Seqs.Filter(cols, Named(n)) == [n]
    decreases |cols|
  {
    var init := cols[..|cols| - 1];
    var last := cols[|cols| - 1];
    assert cols == init + [last];
    if last == n {
      assert n !in init;
      Seqs.FilterEvery(init, Named(n));
    } else {
      NamedDistinct(init, n);
    }
  }

  /** On a header row without repeated names, selecting existing columns yields exactly them, in the order asked. */
  lemma {:induction false} SelectDistinct(cols: seq<string>, wanted: seq<string>)
    requires Seqs.Distinct(cols)
    requires forall k :: 0 <= k < |wanted| ==> wanted[k] in cols
    ensures Select(cols, wanted) == Success(wanted)
    decreases |wanted|
  {
    if wanted != [] {
      NamedDistinct(cols, wanted[0]);
      assert forall k :: 0 <= k < |wanted[1..]| ==> wanted[1..][k] == wanted[k + 1];
      SelectDistinct(cols, wanted[1..]);
      assert [wanted[0]] + wanted[1..] == wanted;
    }
  }

  lemma AddColumnDistinct(cols: seq<string>, name: string)
    requires Seqs.Distinct(cols)
    ensures Seqs.Distinct(AddColumn(cols, name))
  {
  }

  // ------------------------------------------------------ standings

  /** The standings columns dropped once Record is built (streamlit.py:47). */
  const StandingsDropped: seq<string> := ["Playoff Seed", "Games Back", "Wins", "Losses", "Ties", "Percentage"]

  /** `columns.str.replace("_", " ").str.title()` on a whole header row (streamlit.py:45, 48). */
  function Headings(cols: seq<string>): (hs: seq<string>)
    ensures |hs| == |cols|
    ensures forall i :: 0 <= i < |cols| ==> hs[i] == Heading(cols[i])
  {
    seq(|cols|, i requires 0 <= i < |cols| => Heading(cols[i]))
  }

  /** The standings header row after streamlit.py:45-47. */
  function StandingsColumns(cols: seq<string>): Py<seq<string>>
  {
    var hs := Headings(cols);
    var _ :- Need(hs, ["Wins", "Losses", "Ties"]);
    Drop(AddColumn(hs, "Record"), StandingsDropped)
  }

  /**
   * The standings succeed exactly when every dropped name is a heading of
   * the file; then Record is present, no dropped name is, and every other
   * heading survives.
   */
  lemma StandingsShape(cols: seq<string>)
    ensures StandingsColumns(cols).Success? <==>
      forall k :: 0 <= k < |StandingsDropped| ==> StandingsDropped[k] in Headings(cols)
    ensures StandingsColumns(cols).Success? ==>
      && "Record" in StandingsColumns(cols).value
      && (forall k :: 0 <= k < |StandingsDropped| ==> StandingsDropped[k] !in StandingsColumns(cols).value)
      && (forall h :: h in Headings(cols) && h !in StandingsDropped ==> h in StandingsColumns(cols).value)
  {
    var hs := Headings(cols);
    var withRecord := AddColumn(hs, "Record");
    var wlt := ["Wins", "Losses", "Ties"];
    assert "Record" !in StandingsDropped;
    assert forall k :: 0 <= k < |StandingsDropped| ==> (StandingsDropped[k] in withRecord <==> StandingsDropped[k] in hs);
    assert forall k :: 0 <= k < |wlt| ==> wlt[k] == StandingsDropped[k + 2];
  }

  /** The match-up table's own headings are already title-cased (streamlit.py:48). */
  lemma MatchupHeadings()
    ensures Heading("Matchup") == "Matchup" && Heading("Score") == "Score" && Heading("Lead") == "Lead"
  {
  }

  // ------------------------------------------------------ the week filter

  function WeekOf(r: Weekly.RankedRow): Option<real>
  {
    r.row.week
  }

  predicate StrictlyIncreasing(ws: seq<real>)
  {
    forall i, j :: 0 <= i < j < |ws| ==> ws[i] < ws[j]
  }

  /** Adds w to a strictly increasing list of weeks, keeping it strictly increasing. */
  function InsertWeek(w: real, ws: seq<real>): (r: seq<real>)
    requires StrictlyIncreasing(ws)
    ensures StrictlyIncreasing(r)
    ensures forall v :: v in r <==> v == w || v in ws
    decreases |ws|
  {
    if ws == [] then [w]
    else if w < ws[0] then [w] + ws
    else if w == ws[0] then ws
    else
      var rest := InsertWeek(w, ws[1..]);
      assert forall v :: v in ws <==> v == ws[0] || v in ws[1..] by {
        assert ws == [ws[0]] + ws[1..];
      }
      assert forall i :: 0 <= i < |rest| ==> ws[0] < rest[i] by {
        forall i | 0 <= i < |rest| ensures ws[0] < rest[i] {
          assert rest[i] in rest;
          if rest[i] != w {
            var j :| 0 <= j < |ws[1..]| && ws[1..][j] == rest[i];
            assert ws[1..][j] == ws[j + 1];
          }
        }
      }
      [ws[0]] + rest
  }

  /**
   * `sorted(final_df['Week'].unique())` (streamlit.py:99): every week that
   * occurs, once, in ascending order.
   */
  function WeekOptions(rows: seq<Weekly.RankedRow>): (ws: seq<real>)
    ensures StrictlyIncreasing(ws)
    ensures forall w :: w in ws <==> exists i :: 0 <= i < |rows| && WeekOf(rows[i]) == Some(w)
    decreases |rows|
  {
    if rows == [] then []
    else
      var init := rows[..|rows| - 1];
      var earlier := WeekOptions(init);
      assert forall i :: 0 <= i < |init| ==> init[i] == rows[i];
      match WeekOf(rows[|rows| - 1])
      case None => earlier
      case Some(w) => InsertWeek(w, earlier)
  }

  /** The week selected at first: the last option (streamlit.py:100), none when there is no week. */
  function DefaultWeek(ws: seq<real>): Option<real>
  {
    if ws == [] then None else Some(ws[|ws| - 1])
  }

  /** The last of a strictly increasing sequence is its largest element. */
  lemma LastIsLargest(ws: seq<real>)
    requires StrictlyIncreasing(ws) && ws != []
    ensures forall w :: w in ws ==> w <= ws[|ws| - 1]
  {
    forall w | w in ws ensures w <= ws[|ws| - 1] {
      var j :| 0 <= j < |ws| && ws[j] == w;
    }
  }

  /** The default is the latest week of the table, and there is one exactly when some row has a week. */
  lemma DefaultIsLatest(rows: seq<Weekly.RankedRow>)
    ensures DefaultWeek(WeekOptions(rows)).Some? <==> exists i :: 0 <= i < |rows| && WeekOf(rows[i]).Some?
    ensures DefaultWeek(WeekOptions(rows)).Some? ==>
      && (exists i :: 0 <= i < |rows| && WeekOf(rows[i]) == DefaultWeek(WeekOptions(rows)))
      && (forall i :: 0 <= i < |rows| && WeekOf(rows[i]).Some? ==> WeekOf(rows[i]).value <= DefaultWeek(WeekOptions(rows)).value)
  {
    var ws := WeekOptions(rows);
    if exists i :: 0 <= i < |rows| && WeekOf(rows[i]).Some? {
      var i :| 0 <= i < |rows| && WeekOf(rows[i]).Some?;
      assert WeekOf(rows[i]).value in ws;
    }
    if ws != [] {
      var latest := ws[|ws| - 1];
      assert latest in ws;
      LastIsLargest(ws);
      forall i | 0 <= i < |rows| && WeekOf(rows[i]).Some? ensures WeekOf(rows[i]).value <= latest {
        assert WeekOf(rows[i]).value in ws;
      }
    }
  }

  function InWeek(w: real): Weekly.RankedRow -> bool
  {
    r => WeekOf(r) == Some(w)
  }

  /**
   * `final_df[final_df['Week'] == selected_week].sort_values(by=['Adjusted_Rank'])`
   * (streamlit.py:103).
   */
  function WeekTable(rows: seq<Weekly.RankedRow>, w: real): seq<Weekly.RankedRow>
  {
    Weekly.SortByAdjusted(Seqs.Filter(rows, InWeek(w)))
  }

  /**
   * The week's table holds every row of that week, as often as the season
   * table holds it, and no other row, ordered by the adjusted rank.
   */
  lemma WeekTableRows(rows: seq<Weekly.RankedRow>, w: real)
    ensures forall x :: multiset(WeekTable(rows, w))[x] == if WeekOf(x) == Some(w) then multiset(rows)[x] else 0
    ensures forall x :: x in WeekTable(rows, w) ==> WeekOf(x) == Some(w)
    ensures |WeekTable(rows, w)| == Seqs.CountWhere(rows, InWeek(w))
    ensures Seqs.SortedByKey(WeekTable(rows, w), Weekly.AdjustedKey)
  {
    var f := Seqs.Filter(rows, InWeek(w));
    Seqs.FilterContents(rows, InWeek(w));
    assert multiset(WeekTable(rows, w)) == multiset(f);
    forall x | x in WeekTable(rows, w) ensures WeekOf(x) == Some(w) {
      assert x in multiset(WeekTable(rows, w));
      assert x in f;
    }
  }

  // ------------------------------------------------ the statistics table

  /** `stat_categories` (streamlit.py:106). */
  const StatCategories: seq<string> := ["FG%", "FT%", "3PTM", "PTS", "REB", "AST", "STL", "BLK", "TO"]

  /** The header row after the cells of categories cats are rewritten in turn (streamlit.py:109-115). */
  function StatCellsFrom(cols: seq<string>, cats: seq<string>): Py<seq<string>>
    decreases |cats|
  {
    if cats == [] then Success(cols)
    else
      var _ :- Need(cols, [cats[0], cats[0] + "_Rank"]);
      StatCellsFrom(AddColumn(cols, cats[0]), cats[1..])
  }

  function StatCells(cols: seq<string>): Py<seq<string>>
  {
    StatCellsFrom(cols, StatCategories)
  }

  /** Rewriting the cells succeeds exactly when each category and its rank column exist, and then keeps the header row. */
  lemma {:induction false} StatCellsFromShape(cols: seq<string>, cats: seq<string>)
    ensures StatCellsFrom(cols, cats).Success? <==>
      forall k :: 0 <= k < |cats| ==> cats[k] in cols && cats[k] + "_Rank" in cols
    ensures StatCellsFrom(cols, cats).Success? ==> StatCellsFrom(cols, cats).value == cols
    decreases |cats|
  {
    if cats != [] {
      var c := cats[0];
      var pair := [c, c + "_Rank"];
      assert pair[0] == c && pair[1] == c + "_Rank";
      if c in cols && c + "_Rank" in cols {
        assert forall k :: 0 <= k < |pair| ==> pair[k] in cols;
        assert AddColumn(cols, c) == cols;
        StatCellsFromShape(cols, cats[1..]);
        assert forall k :: 0 < k < |cats| ==> cats[k] == cats[1..][k - 1];
      } else {
        assert !(pair[0] in cols && pair[1] in cols);
      }
    }
  }

  /** The loop of streamlit.py:109-115 over the header row, for the given categories. */
  method RewriteStatCells(cols: seq<string>, categories: seq<string>) returns (r: Py<seq<string>>)
    ensures r == StatCellsFrom(cols, categories)
  {
    var cur := cols;
    var i := 0;
    while i < |categories|
      invariant 0 <= i <= |categories|
      invariant StatCellsFrom(cur, categories[i..]) == StatCellsFrom(cols, categories)
    {
      var category := categories[i];
      assert categories[i..][1..] == categories[i + 1..];
      var pair := [category, category + "_Rank"];
      assert pair[0] == category && pair[1] == category + "_Rank";
      if !(category in cur && category + "_Rank" in cur) {
        assert Need(cur, pair).Failure?;
        return Failure(KeyError);
      }
      assert forall k :: 0 <= k < |pair| ==> pair[k] in cur;
      cur := AddColumn(cur, category);
      i := i + 1;
    }
    return Success(cur);
  }

  /** The header row once Rem/Live/Comp and Adjusted Rank are built (streamlit.py:109-121). */
  function CombinedColumns(cols: seq<string>): Py<seq<string>>
  {
    var c1 :- StatCells(cols);
    var _ :- Need(c1, ["Remaining Games", "Live Games", "Completed Games"]);
    var c2 := AddColumn(c1, "Rem/Live/Comp");
    var _ :- Need(c2, ["Adjusted_Rank", "Aggregate Rank"]);
    Success(AddColumn(c2, "Adjusted Rank"))
  }

  /**
   * Building the table's cells raises KeyError unless each category, its
   * rank column, the three game counts, Adjusted_Rank and Aggregate Rank
   * are columns; then exactly Rem/Live/Comp and Adjusted Rank are added.
   */
  lemma CombinedShape(cols: seq<string>)
    ensures CombinedColumns(cols).Success? <==>
      && (forall k :: 0 <= k < |StatCategories| ==> StatCategories[k] in cols && StatCategories[k] + "_Rank" in cols)
      && "Remaining Games" in cols && "Live Games" in cols && "Completed Games" in cols
      && "Adjusted_Rank" in cols && "Aggregate Rank" in cols
    ensures CombinedColumns(cols).Success? ==>
      CombinedColumns(cols).value == AddColumn(AddColumn(cols, "Rem/Live/Comp"), "Adjusted Rank")
  {
    StatCellsFromShape(cols, StatCategories);
    var counts := ["Remaining Games", "Live Games", "Completed Games"];
    var ranks := ["Adjusted_Rank", "Aggregate Rank"];
    assert counts[0] == "Remaining Games" && counts[1] == "Live Games" && counts[2] == "Completed Games";
    assert ranks[0] == "Adjusted_Rank" && ranks[1] == "Aggregate Rank";
    var c2 := AddColumn(cols, "Rem/Live/Comp");
    assert "Adjusted_Rank" in c2 <==> "Adjusted_Rank" in cols;
    assert "Aggregate Rank" in c2 <==> "Aggregate Rank" in cols;
  }

  /** The fixed part of `columns_to_remove` (streamlit.py:125). */
  const FixedRemoved: seq<string> :=
    ["Team Key", "Team Id", "Fgm/A", "Ftm/A", "Remaining Games", "Live Games", "Completed Games", "Aggregate Rank"]

  function MentionsRank(): string -> bool
  {
    c => HasSubstring(c, "_Rank")
  }

  /** `columns_to_remove` extended by every column whose name contains `_Rank` (streamlit.py:125-129). */
  function ColumnsToRemove(cols: seq<string>): (r: seq<string>)
    ensures forall c :: c in cols && HasSubstring(c, "_Rank") ==> c in r
  {
    Seqs.FilterContents(cols, MentionsRank());
    FixedRemoved + Seqs.Filter(cols, MentionsRank())
  }

  /** `desired_order` (streamlit.py:135). */
  const DesiredOrder: seq<string> :=
    ["Week", "Name", "Rem/Live/Comp", "Adjusted Rank", "FG%", "FT%", "3PTM", "PTS", "REB", "AST", "STL", "BLK", "TO"]

  /** The header row of the displayed statistics table (streamlit.py:106-136). */
  function TableColumns(cols: seq<string>): Py<seq<string>>
  {
    var c :- CombinedColumns(cols);
    var d :- Drop(c, ColumnsToRemove(c));
    Select(d, DesiredOrder)
  }

  /**
   * After the drop no column name contains `_Rank`: Adjusted_Rank goes too,
   * its value living on in the new Adjusted Rank column.
   */
  lemma DropRemovesRankColumns(cols: seq<string>)
    ensures Drop(cols, ColumnsToRemove(cols)).Success? <==> forall k :: 0 <= k < |FixedRemoved| ==> FixedRemoved[k] in cols
    ensures Drop(cols, ColumnsToRemove(cols)).Success? ==>
      forall c :: c in Drop(cols, ColumnsToRemove(cols)).value ==> !HasSubstring(c, "_Rank") && c !in FixedRemoved
  {
    var names := ColumnsToRemove(cols);
    assert forall k :: 0 <= k < |FixedRemoved| ==> names[k] == FixedRemoved[k];
    forall k | |FixedRemoved| <= k < |names| ensures names[k] in cols {
      Seqs.FilterContents(cols, MentionsRank());
      assert names[k] in Seqs.Filter(cols, MentionsRank());
    }
  }

  lemma DesiredOrderHasNoRank()
    ensures forall k :: 0 <= k < |DesiredOrder| ==> !HasSubstring(DesiredOrder[k], "_Rank")
  {
    forall k | 0 <= k < |DesiredOrder| ensures !HasSubstring(DesiredOrder[k], "_Rank") {
      NoSubstringWithout(DesiredOrder[k], "_Rank", '_');
    }
  }

  /** A name outside the fixed list and without `_Rank` is never removed. */
  lemma NotRemoved(c: seq<string>, n: string)
    requires n !in FixedRemoved && !HasSubstring(n, "_Rank")
    ensures n !in ColumnsToRemove(c)
  {
    Seqs.FilterContents(c, MentionsRank());
  }

  lemma DisplayedNotFixed()
    ensures forall k :: 0 <= k < |DesiredOrder| ==> DesiredOrder[k] !in FixedRemoved
  {
  }

  /** The drop keeps every displayed name that is a column. */
  lemma DropKeepsDisplayed(c: seq<string>)
    requires Drop(c, ColumnsToRemove(c)).Success?
    ensures forall k :: 0 <= k < |DesiredOrder| ==>
      (DesiredOrder[k] in Drop(c, ColumnsToRemove(c)).value <==> DesiredOrder[k] in c)
  {
    DesiredOrderHasNoRank();
    DisplayedNotFixed();
    forall k | 0 <= k < |DesiredOrder| ensures DesiredOrder[k] !in ColumnsToRemove(c) {
      NotRemoved(c, DesiredOrder[k]);
    }
  }

  /** Building the cells adds no repeated name to a header row without one. */
  lemma CombinedDistinct(cols: seq<string>)
    requires Seqs.Distinct(cols) && CombinedColumns(cols).Success?
    ensures Seqs.Distinct(CombinedColumns(cols).value)
  {
    CombinedShape(cols);
    AddColumnDistinct(cols, "Rem/Live/Comp");
    AddColumnDistinct(AddColumn(cols, "Rem/Live/Comp"), "Adjusted Rank");
  }

  /**
   * On a header row without repeated names the table builds exactly when
   * the cells can be built and every removed and every displayed name is a
   * column, and then it shows exactly the `desired_order` columns, in that
   * order.
   */
  lemma TableColumnsOrder(cols: seq<string>)
    requires Seqs.Distinct(cols)
    ensures TableColumns(cols).Success? <==>
      && CombinedColumns(cols).Success?
      && (forall k :: 0 <= k < |FixedRemoved| ==> FixedRemoved[k] in CombinedColumns(cols).value)
      && (forall k :: 0 <= k < |DesiredOrder| ==> DesiredOrder[k] in CombinedColumns(cols).value)
    ensures TableColumns(cols).Success? ==> TableColumns(cols).value == DesiredOrder
  {
    if CombinedColumns(cols).Success? {
      var c := CombinedColumns(cols).value;
      DropRemovesRankColumns(c);
      var r := Drop(c, ColumnsToRemove(c));
      if r.Success? {
        CombinedDistinct(cols);
        Seqs.FilterDistinct(c, NotIn(ColumnsToRemove(c)));
        DropKeepsDisplayed(c);
        if forall k :: 0 <= k < |DesiredOrder| ==> DesiredOrder[k] in r.value {
          SelectDistinct(r.value, DesiredOrder);
        }
      }
    }
  }

  /** The two columns the dashboard builds (streamlit.py:118, 121). */
  const BuiltColumns: seq<string> := ["Rem/Live/Comp", "Adjusted Rank"]

  lemma SeasonHasCategories()
    ensures forall k :: 0 <= k < |StatCategories| ==>
      StatCategories[k] in FormattedSeasonColumns && StatCategories[k] + "_Rank" in FormattedSeasonColumns
  {
    var f := FormattedSeasonColumns;
    forall k | 0 <= k < |StatCategories| ensures StatCategories[k] in f && StatCategories[k] + "_Rank" in f {
      assert StatCategories[k] + "_Rank" == RankColumnNames[k] == f[18 + k];
      assert StatCategories[k] == f[if k < 2 then 8 + 2 * k else 9 + k];
    }
  }

  lemma BuiltAreNew()
    ensures "Rem/Live/Comp" !in FormattedSeasonColumns
    ensures "Adjusted Rank" !in FormattedSeasonColumns + ["Rem/Live/Comp"]
  {
  }

  lemma SeasonCombined()
    ensures CombinedColumns(FormattedSeasonColumns) == Success(FormattedSeasonColumns + BuiltColumns)
  {
    var f := FormattedSeasonColumns;
    SeasonHasCategories();
    assert f[4] == "Remaining Games" && f[5] == "Live Games" && f[6] == "Completed Games";
    assert f[27] == "Aggregate Rank" && f[28] == "Adjusted_Rank";
    CombinedShape(f);
    BuiltAreNew();
    assert f + ["Rem/Live/Comp"] + ["Adjusted Rank"] == f + BuiltColumns;
  }

  lemma SeasonDistinct()
    ensures Seqs.Distinct(FormattedSeasonColumns)
  {
  }

  lemma SeasonHasShownNames()
    ensures forall k :: 0 <= k < |FixedRemoved| ==> FixedRemoved[k] in FormattedSeasonColumns + BuiltColumns
    ensures forall k :: 0 <= k < |DesiredOrder| ==> DesiredOrder[k] in FormattedSeasonColumns + BuiltColumns
  {
    var c := FormattedSeasonColumns + BuiltColumns;
    assert forall k :: 0 <= k < |FixedRemoved| ==> FixedRemoved[k] == c[[1, 2, 7, 9, 4, 5, 6, 27][k]];
    assert forall k :: 0 <= k < |DesiredOrder| ==> DesiredOrder[k] == c[[0, 3, 29, 30, 8, 10, 11, 12, 13, 14, 15, 16, 17][k]];
  }

  /** On the season table's own header row the dashboard shows exactly `desired_order`. */
  lemma SeasonTableColumns()
    ensures TableColumns(FormatAll(SeasonColumns)) == Success(DesiredOrder)
  {
    SeasonHeadings();
    SeasonCombined();
    SeasonDistinct();
    SeasonHasShownNames();
    TableColumnsOrder(FormattedSeasonColumns);
  }
}
