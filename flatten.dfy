/**
 * Flattening of one week's matchup response into one record per team
 * (logic.py:96-150): the two teams of every matchup are collected, and
 * each team's nested list is scanned for its key, id, name, week, game
 * counts and the statistics named in the fixed `stat_labels` table.
 */
module Flatten {
  import opened Wrappers
  import opened PyJson

  /** The slots of `stat_labels` (logic.py:31-43), in table order. */
  datatype Label = FGMA | FGPct | FTMA | FTPct | Threes | Pts | Reb | Ast | Stl | Blk | TO

  /** The `stat_labels` table: statistic id to slot. */
  const StatLabels: seq<(string, Label)> :=
    [ ("9004003", FGMA), ("5", FGPct), ("9007006", FTMA), ("8", FTPct), ("10", Threes),
      ("12", Pts), ("15", Reb), ("16", Ast), ("17", Stl), ("18", Blk), ("19", TO) ]

  /** The column name of each slot. */
  function LabelName(l: Label): string
  {
    match l
    case FGMA => "FGM/A"
    case FGPct => "FG%"
    case FTMA => "FTM/A"
    case FTPct => "FT%"
    case Threes => "3PTM"
    case Pts => "PTS"
    case Reb => "REB"
    case Ast => "AST"
    case Stl => "STL"
    case Blk => "BLK"
    case TO => "TO"
  }

  /** The slot a table assigns to an id, if the id is one of its keys. */
  function Lookup(table: seq<(string, Label)>, id: string): (r: Option<Label>)
    ensures r.Some? <==> exists i :: 0 <= i < |table| && table[i].0 == id
    ensures r.Some? ==> (id, r.value) in table
  {
    if table == [] then None
    else if table[0].0 == id then Some(table[0].1)
    else
      var r := Lookup(table[1..], id);
      assert forall i :: 0 < i < |table| ==> table[i] == table[1..][i - 1];
      r
  }

  /** `stat_labels.get(id)` for a string id. */
  function LabelOf(id: string): Option<Label>
  {
    Lookup(StatLabels, id)
  }

  /** `stat_id in stat_labels` followed by `stat_labels[stat_id]`: the dict keys are strings. */
  function LabelFor(id: Json): (r: Py<Option<Label>>)
    ensures r.Failure? <==> !Hashable(id)
    ensures r.Failure? ==> r.error == TypeError
    ensures id.JStr? ==> r == Success(LabelOf(id.s))
    ensures r.Success? && r.value.Some? ==> id.JStr? && LabelOf(id.s) == r.value
  {
    if !Hashable(id) then Failure(TypeError)
    else if id.JStr? then Success(LabelOf(id.s))
    else Success(None)
  }

  /**
   * One flattened team row before numeric coercion (the `output` dict of
   * logic.py:113-121 merged with `team_stats_dict`). `None` is Python's None;
   * a statistic slot that was never written is absent from `stats`, which
   * stands for the None every slot starts with (logic.py:124).
   */
  datatype TeamRecord = TeamRecord(
    week: Option<Json>,
    teamKey: Option<Json>,
    teamId: Option<Json>,
    name: Option<Json>,
    remainingGames: Option<Json>,
    liveGames: Option<Json>,
    completedGames: Option<Json>,
    stats: map<Label, Json>)

  /** Every field missing, as each record starts. */
  const Blank: TeamRecord := TeamRecord(None, None, None, None, None, None, None, map[])

  // ---------------------------------------------------------------- teams

  /** `matchups['fantasy_content']['league'][1]['scoreboard']['0']['matchups']` */
  function MatchupsOf(response: Json): Py<Json>
  {
    Path(response, [Key("fantasy_content"), Key("league"), Index(1), Key("scoreboard"), Key("0"), Key("matchups")])
  }

  /** `matchups[key]['matchup']['0']['teams'][side]['team']` */
  function TeamOf(matchups: Json, key: string, side: string): Py<Json>
  {
    Path(matchups, [Key(key), Key("matchup"), Key("0"), Key("teams"), Key(side), Key("team")])
  }

  /** The matchup keys the loop of logic.py:101-106 visits. */
  function NonCount(keys: seq<string>): (r: seq<string>)
    ensures forall k :: k in r <==> k in keys && k != "count"
  {
    if keys == [] then []
    else if keys[0] == "count" then NonCount(keys[1..])
    else [keys[0]] + NonCount(keys[1..])
  }

  /** The loop of logic.py:101-106, continuing with `acc` over the remaining `keys`. */
  function TeamsFrom(matchups: Json, acc: seq<Json>, keys: seq<string>): Py<seq<Json>>
    decreases |keys|
  {
    if keys == [] then Success(acc)
    else if keys[0] == "count" then TeamsFrom(matchups, acc, keys[1..])
    else
      var t1 :- TeamOf(matchups, keys[0], "1");
      var t2 :- TeamOf(matchups, keys[0], "0");
      TeamsFrom(matchups, acc + [t1, t2], keys[1..])
  }

  /** The list `temp` of logic.py:99-106. */
  function Teams(matchups: Json, keys: seq<string>): Py<seq<Json>>
  {
    TeamsFrom(matchups, [], keys)
  }

  predicate BothSidesPresent(matchups: Json, key: string)
  {
    TeamOf(matchups, key, "1").Success? && TeamOf(matchups, key, "0").Success?
  }

  method ExtractTeams(matchups: Json, keys: seq<string>) returns (r: Py<seq<Json>>)
    ensures r == Teams(matchups, keys)
  {
    var temp: seq<Json> := [];
    var i := 0;
    while i < |keys|
      invariant 0 <= i <= |keys|
      invariant TeamsFrom(matchups, temp, keys[i..]) == Teams(matchups, keys)
    {
      assert keys[i..][1..] == keys[i + 1..];
      if keys[i] != "count" {
        var t1 := TeamOf(matchups, keys[i], "1");
        if t1.Failure? { return Failure(t1.error); }
        var t2 := TeamOf(matchups, keys[i], "0");
        if t2.Failure? { return Failure(t2.error); }
        temp := temp + [t1.value, t2.value];
      }
      i := i + 1;
    }
    return Success(temp);
  }

  /** Every listed matchup key has both sides. */
  predicate AllSidesPresent(matchups: Json, keys: seq<string>)
  {
    forall k :: 0 <= k < |keys| ==> BothSidesPresent(matchups, keys[k])
  }

  /** Skipping "count", and otherwise splitting off the first key. */
  lemma NonCountStep(keys: seq<string>)
    requires keys != []
    ensures keys[0] == "count" ==> NonCount(keys) == NonCount(keys[1..])
    ensures keys[0] != "count" ==> NonCount(keys) == [keys[0]] + NonCount(keys[1..])
  {
  }

  lemma AllSidesPresentCons(matchups: Json, key: string, rest: seq<string>)
    ensures AllSidesPresent(matchups, [key] + rest) <==>
      BothSidesPresent(matchups, key) && AllSidesPresent(matchups, rest)
  {
    var nc := [key] + rest;
    if AllSidesPresent(matchups, nc) {
      assert BothSidesPresent(matchups, nc[0]);
      forall k | 0 <= k < |rest| ensures BothSidesPresent(matchups, rest[k]) {
        assert rest[k] == nc[k + 1];
      }
    }
    if BothSidesPresent(matchups, key) && AllSidesPresent(matchups, rest) {
      forall k | 0 <= k < |nc| ensures BothSidesPresent(matchups, nc[k]) {
        if k > 0 {
          assert nc[k] == rest[k - 1];
        }
      }
    }
  }

  /** The teams are read exactly when every non-"count" key has both sides. */
  lemma {:induction false} TeamsFromSucceeds(matchups: Json, acc: seq<Json>, keys: seq<string>)
    ensures TeamsFrom(matchups, acc, keys).Success? <==> AllSidesPresent(matchups, NonCount(keys))
    decreases |keys|
  {
    if keys != [] {
      NonCountStep(keys);
      if keys[0] == "count" {
        TeamsFromSucceeds(matchups, acc, keys[1..]);
      } else {
        AllSidesPresentCons(matchups, keys[0], NonCount(keys[1..]));
        if BothSidesPresent(matchups, keys[0]) {
          var acc' := acc + [TeamOf(matchups, keys[0], "1").value, TeamOf(matchups, keys[0], "0").value];
          TeamsFromSucceeds(matchups, acc', keys[1..]);
        }
      }
    }
  }

  /** `acc`, then for each key `one(key)` followed by `zero(key)`. */
  ghost predicate PairsLaidOut(acc: seq<Json>, nc: seq<string>, ts: seq<Json>, one: string -> Json, zero: string -> Json)
  {
    && |ts| == |acc| + 2 * |nc|
    && ts[..|acc|] == acc
    && forall k :: 0 <= k < |nc| ==> ts[|acc| + 2 * k] == one(nc[k]) && ts[|acc| + 2 * k + 1] == zero(nc[k])
  }

  lemma PairsCons(acc: seq<Json>, key: string, rest: seq<string>, ts: seq<Json>, one: string -> Json, zero: string -> Json)
    requires PairsLaidOut(acc + [one(key), zero(key)], rest, ts, one, zero)
    ensures PairsLaidOut(acc, [key] + rest, ts, one, zero)
  {
    var acc' := acc + [one(key), zero(key)];
    var nc := [key] + rest;
    assert ts[..|acc|] == acc'[..|acc|];
    assert ts[|acc|] == acc'[|acc|] && ts[|acc| + 1] == acc'[|acc| + 1];
    forall k | 0 < k < |nc|
      ensures ts[|acc| + 2 * k] == one(nc[k]) && ts[|acc| + 2 * k + 1] == zero(nc[k])
    {
      assert nc[k] == rest[k - 1];
      assert |acc'| + 2 * (k - 1) == |acc| + 2 * k;
    }
  }

  /** The team on one side of a matchup, where it is present. */
  function SideOf(matchups: Json, side: string): string -> Json
  {
    key => if TeamOf(matchups, key, side).Success? then TeamOf(matchups, key, side).value else JNull
  }

  /** The teams read: acc, then the two sides of each non-"count" key, side "1" first. */
  ghost predicate TeamsLaidOut(matchups: Json, acc: seq<Json>, nc: seq<string>, ts: seq<Json>)
  {
    AllSidesPresent(matchups, nc) && PairsLaidOut(acc, nc, ts, SideOf(matchups, "1"), SideOf(matchups, "0"))
  }

  lemma LaidOutCons(matchups: Json, acc: seq<Json>, key: string, rest: seq<string>, ts: seq<Json>)
    requires BothSidesPresent(matchups, key)
    requires TeamsLaidOut(matchups, acc + [TeamOf(matchups, key, "1").value, TeamOf(matchups, key, "0").value], rest, ts)
    ensures TeamsLaidOut(matchups, acc, [key] + rest, ts)
  {
    AllSidesPresentCons(matchups, key, rest);
    PairsCons(acc, key, rest, ts, SideOf(matchups, "1"), SideOf(matchups, "0"));
  }

  lemma {:induction false} TeamsFromValue(matchups: Json, acc: seq<Json>, keys: seq<string>)
    requires TeamsFrom(matchups, acc, keys).Success?
    ensures TeamsLaidOut(matchups, acc, NonCount(keys), TeamsFrom(matchups, acc, keys).value)
    decreases |keys|
  {
    if keys != [] {
      NonCountStep(keys);
      if keys[0] == "count" {
        TeamsFromValue(matchups, acc, keys[1..]);
      } else {
        var acc' := acc + [TeamOf(matchups, keys[0], "1").value, TeamOf(matchups, keys[0], "0").value];
        TeamsFromValue(matchups, acc', keys[1..]);
        LaidOutCons(matchups, acc, keys[0], NonCount(keys[1..]), TeamsFrom(matchups, acc, keys).value);
      }
    }
  }

  /**
   * Two teams per matchup key other than 'count', team '1' before team '0',
   * in key order; the extraction fails exactly when some such key lacks a side.
   */
  lemma TeamsFromShape(matchups: Json, acc: seq<Json>, keys: seq<string>)
    ensures TeamsFrom(matchups, acc, keys).Success? <==>
      forall k :: 0 <= k < |NonCount(keys)| ==> BothSidesPresent(matchups, NonCount(keys)[k])
    ensures TeamsFrom(matchups, acc, keys).Success? ==>
      var ts := TeamsFrom(matchups, acc, keys).value;
      && |ts| == |acc| + 2 * |NonCount(keys)|
      && ts[..|acc|] == acc
      && forall k :: 0 <= k < |NonCount(keys)| ==>
           && ts[|acc| + 2 * k] == TeamOf(matchups, NonCount(keys)[k], "1").value
           && ts[|acc| + 2 * k + 1] == TeamOf(matchups, NonCount(keys)[k], "0").value
  {
    TeamsFromSucceeds(matchups, acc, keys);
    if TeamsFrom(matchups, acc, keys).Success? {
      TeamsFromValue(matchups, acc, keys);
      var nc := NonCount(keys);
      forall k | 0 <= k < |nc|
        ensures SideOf(matchups, "1")(nc[k]) == TeamOf(matchups, nc[k], "1").value
        ensures SideOf(matchups, "0")(nc[k]) == TeamOf(matchups, nc[k], "0").value
      {
        assert BothSidesPresent(matchups, nc[k]);
      }
    }
  }

  // ---------------------------------------------------- flat header fields

  /** `if k in item: output[k] = item[k]`: the value found, or None when absent. */
  function Probe(item: Json, k: string): Py<Option<Json>>
  {
    var has :- Contains(item, k);
    if has then var v :- Get(item, k); Success(Some(v)) else Success(None)
  }

  function Overwrite(current: Option<Json>, found: Option<Json>): Option<Json>
  {
    if found.Some? then found else current
  }

  /** One pass of the loop of logic.py:126-133. */
  function HeaderStep(out: TeamRecord, item: Json): Py<TeamRecord>
  {
    var key :- Probe(item, "team_key");
    var id :- Probe(item, "team_id");
    var nm :- Probe(item, "name");
    Success(out.(teamKey := Overwrite(out.teamKey, key),
                 teamId := Overwrite(out.teamId, id),
                 name := Overwrite(out.name, nm)))
  }

  function HeadersFrom(out: TeamRecord, items: seq<Json>): Py<TeamRecord>
    decreases |items|
  {
    if items == [] then Success(out)
    else
      var out' :- HeaderStep(out, items[0]);
      HeadersFrom(out', items[1..])
  }

  method ApplyHeaders(out0: TeamRecord, items: seq<Json>) returns (r: Py<TeamRecord>)
    ensures r == HeadersFrom(out0, items)
  {
    var out := out0;
    var i := 0;
    while i < |items|
      invariant 0 <= i <= |items|
      invariant HeadersFrom(out, items[i..]) == HeadersFrom(out0, items)
    {
      assert items[i..][1..] == items[i + 1..];
      var key := Probe(items[i], "team_key");
      if key.Failure? { return Failure(key.error); }
      var id := Probe(items[i], "team_id");
      if id.Failure? { return Failure(id.error); }
      var nm := Probe(items[i], "name");
      if nm.Failure? { return Failure(nm.error); }
      if key.value.Some? { out := out.(teamKey := key.value); }
      if id.value.Some? { out := out.(teamId := id.value); }
      if nm.value.Some? { out := out.(name := nm.value); }
      i := i + 1;
    }
    return Success(out);
  }

  // ------------------------------------------------------------ statistics

  /** One pass of the loop of logic.py:140-143. */
  function StatStep(stats: map<Label, Json>, stat: Json): Py<map<Label, Json>>
  {
    var inner :- Get(stat, "stat");
    var id :- Get(inner, "stat_id");
    var slot :- LabelFor(id);
    if slot.Some? then
      var v :- Get(inner, "value");
      Success(stats[slot.value := v])
    else Success(stats)
  }

  function StatsFrom(stats: map<Label, Json>, xs: seq<Json>): Py<map<Label, Json>>
    decreases |xs|
  {
    if xs == [] then Success(stats)
    else
      var stats' :- StatStep(stats, xs[0]);
      StatsFrom(stats', xs[1..])
  }

  method ApplyStats(stats0: map<Label, Json>, xs: seq<Json>) returns (r: Py<map<Label, Json>>)
    ensures r == StatsFrom(stats0, xs)
  {
    var stats := stats0;
    var i := 0;
    while i < |xs|
      invariant 0 <= i <= |xs|
      invariant StatsFrom(stats, xs[i..]) == StatsFrom(stats0, xs)
    {
      assert xs[i..][1..] == xs[i + 1..];
      var inner := Get(xs[i], "stat");
      if inner.Failure? { return Failure(inner.error); }
      var id := Get(inner.value, "stat_id");
      if id.Failure? { return Failure(id.error); }
      var slot := LabelFor(id.value);
      if slot.Failure? { return Failure(slot.error); }
      if slot.value.Some? {
        var v := Get(inner.value, "value");
        if v.Failure? { return Failure(v.error); }
        stats := stats[slot.value.value := v.value];
      }
      i := i + 1;
    }
    return Success(stats);
  }

  /** The slot of an entry's `stat_id`, when the entry has one. */
  function StatLabelOf(stat: Json): Option<Label>
  {
    match Get(stat, "stat")
    case Failure(_) => None
    case Success(inner) =>
      match Get(inner, "stat_id")
      case Failure(_) => None
      case Success(id) => if id.JStr? then LabelOf(id.s) else None
  }

  /** The slot and value a well-formed entry with a known id writes. */
  function Written(stat: Json): Option<(Label, Json)>
  {
    match Get(stat, "stat")
    case Failure(_) => None
    case Success(inner) =>
      match Get(inner, "stat_id")
      case Failure(_) => None
      case Success(id) =>
        if id.JStr? && LabelOf(id.s).Some? then
          match Get(inner, "value")
          case Failure(_) => None
          case Success(v) => Some((LabelOf(id.s).value, v))
        else None
  }

  lemma StatStepSlot(stats: map<Label, Json>, stat: Json)
    requires StatStep(stats, stat).Success?
    ensures Written(stat).Some? ==> StatLabelOf(stat) == Some(Written(stat).value.0)
    ensures StatLabelOf(stat).None? ==> StatStep(stats, stat).value == stats
    ensures StatLabelOf(stat).Some? ==>
      Written(stat).Some? && StatStep(stats, stat).value == stats[Written(stat).value.0 := Written(stat).value.1]
  {
  }

  /** A slot that no entry names keeps what it held: in particular it stays missing. */
  lemma {:induction false} StatUntouchedSlot(stats: map<Label, Json>, xs: seq<Json>, l: Label)
    requires StatsFrom(stats, xs).Success?
    requires forall j :: 0 <= j < |xs| ==> StatLabelOf(xs[j]) != Some(l)
    ensures (l in StatsFrom(stats, xs).value) == (l in stats)
    ensures l in stats ==> StatsFrom(stats, xs).value[l] == stats[l]
    decreases |xs|
  {
    if xs != [] {
      StatStepSlot(stats, xs[0]);
      var stats' := StatStep(stats, xs[0]).value;
      forall j | 0 <= j < |xs| - 1 ensures StatLabelOf(xs[1..][j]) != Some(l) {
        assert xs[1..][j] == xs[j + 1];
      }
      StatUntouchedSlot(stats', xs[1..], l);
    }
  }

  /** An entry whose id is not in `stat_labels` leaves no trace, wherever it stands. */
  lemma {:induction false} StatUnknownIdNoTrace(stats: map<Label, Json>, pre: seq<Json>, x: Json, post: seq<Json>)
    requires StatStep(map[], x).Success? && StatLabelOf(x).None?
    ensures StatsFrom(stats, pre + [x] + post) == StatsFrom(stats, pre + post)
    decreases |pre|
  {
    if pre == [] {
      assert pre + [x] + post == [x] + post && pre + post == post;
      assert ([x] + post)[0] == x && ([x] + post)[1..] == post;
      StatStepSlot(map[], x);
      assert StatStep(stats, x) == Success(stats);
    } else {
      assert (pre + [x] + post)[0] == (pre + post)[0] == pre[0];
      assert (pre + [x] + post)[1..] == pre[1..] + [x] + post;
      assert (pre + post)[1..] == pre[1..] + post;
      match StatStep(stats, pre[0])
      case Failure(_) =>
      case Success(stats') => StatUnknownIdNoTrace(stats', pre[1..], x, post);
    }
  }

  lemma StatWrittenThenUntouched(stats: map<Label, Json>, x: Json, post: seq<Json>)
    requires StatsFrom(stats, [x] + post).Success?
    requires Written(x).Some?
    requires forall j :: 0 <= j < |post| ==> StatLabelOf(post[j]) != Some(Written(x).value.0)
    ensures Written(x).value.0 in StatsFrom(stats, [x] + post).value
    ensures StatsFrom(stats, [x] + post).value[Written(x).value.0] == Written(x).value.1
  {
    TailOfConcat([x], post);
    StatStepSlot(stats, x);
    var stats' := StatStep(stats, x).value;
    assert StatsFrom(stats, [x] + post) == StatsFrom(stats', post);
    StatUntouchedSlot(stats', post, Written(x).value.0);
  }

  /** Reading pre + tail starts with pre's first statistic. */
  lemma StatsFromFirst(stats: map<Label, Json>, pre: seq<Json>, tail: seq<Json>)
    requires pre != [] && StatsFrom(stats, pre + tail).Success?
    ensures StatStep(stats, pre[0]).Success?
    ensures StatsFrom(stats, pre + tail) == StatsFrom(StatStep(stats, pre[0]).value, pre[1..] + tail)
  {
    TailOfConcat(pre, tail);
  }

  /** The last entry naming a slot decides its value: later entries overwrite earlier ones. */
  lemma {:induction false} StatLastOccurrenceWins(stats: map<Label, Json>, pre: seq<Json>, x: Json, post: seq<Json>)
    requires StatsFrom(stats, pre + [x] + post).Success?
    requires Written(x).Some?
    requires forall j :: 0 <= j < |post| ==> StatLabelOf(post[j]) != Some(Written(x).value.0)
    ensures Written(x).value.0 in StatsFrom(stats, pre + [x] + post).value
    ensures StatsFrom(stats, pre + [x] + post).value[Written(x).value.0] == Written(x).value.1
    decreases |pre|
  {
    assert pre + [x] + post == pre + ([x] + post);
    if pre == [] {
      StatWrittenThenUntouched(stats, x, post);
    } else {
      StatsFromFirst(stats, pre, [x] + post);
      assert pre[1..] + ([x] + post) == pre[1..] + [x] + post;
      StatLastOccurrenceWins(StatStep(stats, pre[0]).value, pre[1..], x, post);
    }
  }


  lemma TailOfConcat<T>(a: seq<T>, b: seq<T>)
    requires a != []
    ensures (a + b)[0] == a[0] && (a + b)[1..] == a[1..] + b
  {
  }

  // ------------------------------------------------------- the team's items

  /** `item["team_remaining_games"]["total"]` and its three counts. */
  function GameCounts(item: Json): Py<(Json, Json, Json)>
  {
    var t :- Get(item, "team_remaining_games");
    var total :- Get(t, "total");
    var remaining :- Get(total, "remaining_games");
    var live :- Get(total, "live_games");
    var completed :- Get(total, "completed_games");
    Success((remaining, live, completed))
  }

  /** The `team_stats` half of one pass (logic.py:137-142): the week and the stat slots. */
  function StatsPart(out: TeamRecord, item: Json): Py<TeamRecord>
  {
    if HasKey(item, "team_stats") then
      var ts := Get(item, "team_stats").value;
      var week :- Get(ts, "week");
      var list :- Get(ts, "stats");
      var xs :- Iter(list);
      var stats :- StatsFrom(out.stats, xs);
      Success(out.(week := Some(week), stats := stats))
    else Success(out)
  }

  /** The `team_remaining_games` half of one pass (logic.py:143-147): the three game counts. */
  function CountsPart(out: TeamRecord, item: Json): Py<TeamRecord>
  {
    if HasKey(item, "team_remaining_games") then
      var counts :- GameCounts(item);
      Success(out.(remainingGames := Some(counts.0), liveGames := Some(counts.1), completedGames := Some(counts.2)))
    else Success(out)
  }

  /** One pass of the loop of logic.py:135-147; items that are not dicts are skipped. */
  function ItemStep(out: TeamRecord, item: Json): Py<TeamRecord>
  {
    if !item.JObj? then Success(out)
    else
      var out1 :- StatsPart(out, item);
      CountsPart(out1, item)
  }

  function ItemsFrom(out: TeamRecord, items: seq<Json>): Py<TeamRecord>
    decreases |items|
  {
    if items == [] then Success(out)
    else
      var out' :- ItemStep(out, items[0]);
      ItemsFrom(out', items[1..])
  }

  method ApplyItem(out: TeamRecord, item: Json) returns (r: Py<TeamRecord>)
    ensures r == ItemStep(out, item)
  {
    if !item.JObj? { return Success(out); }
    var out1 := out;
    if HasKey(item, "team_stats") {
      var ts := Get(item, "team_stats").value;
      var week := Get(ts, "week");
      if week.Failure? { return Failure(week.error); }
      var list := Get(ts, "stats");
      if list.Failure? { return Failure(list.error); }
      var xs := Iter(list.value);
      if xs.Failure? { return Failure(xs.error); }
      var stats := ApplyStats(out.stats, xs.value);
      if stats.Failure? { return Failure(stats.error); }
      out1 := out.(week := Some(week.value), stats := stats.value);
    }
    if HasKey(item, "team_remaining_games") {
      var counts := GameCounts(item);
      if counts.Failure? { return Failure(counts.error); }
      out1 := out1.(remainingGames := Some(counts.value.0), liveGames := Some(counts.value.1),
                    completedGames := Some(counts.value.2));
    }
    return Success(out1);
  }

  method ApplyItems(out0: TeamRecord, items: seq<Json>) returns (r: Py<TeamRecord>)
    ensures r == ItemsFrom(out0, items)
  {
    var out := out0;
    var i := 0;
    while i < |items|
      invariant 0 <= i <= |items|
      invariant ItemsFrom(out, items[i..]) == ItemsFrom(out0, items)
    {
      assert items[i..][1..] == items[i + 1..];
      var next := ApplyItem(out, items[i]);
      if next.Failure? { return next; }
      out := next.value;
      i := i + 1;
    }
    return Success(out);
  }

  /** The header fields come from `data[0]` alone: the item scan never writes them. */
  lemma {:induction false} ItemsKeepHeaders(out: TeamRecord, items: seq<Json>)
    requires ItemsFrom(out, items).Success?
    ensures ItemsFrom(out, items).value.teamKey == out.teamKey
    ensures ItemsFrom(out, items).value.teamId == out.teamId
    ensures ItemsFrom(out, items).value.name == out.name
    decreases |items|
  {
    if items != [] {
      ItemStepWrites(out, items[0]);
      ItemsKeepHeaders(ItemStep(out, items[0]).value, items[1..]);
    }
  }

  /** The header scan writes only the key, id and name. */
  lemma {:induction false} HeadersKeepRest(out: TeamRecord, items: seq<Json>)
    requires HeadersFrom(out, items).Success?
    ensures HeadersFrom(out, items).value ==
      out.(teamKey := HeadersFrom(out, items).value.teamKey,
           teamId := HeadersFrom(out, items).value.teamId,
           name := HeadersFrom(out, items).value.name)
    decreases |items|
  {
    if items != [] {
      HeadersKeepRest(HeaderStep(out, items[0]).value, items[1..]);
    }
  }

  // ------------------------------------------------- what the scans write

  /**
   * The value the last item that writes a field gives it, `f` saying what
   * each item writes (None: it leaves the field alone); None when no item
   * writes it.
   */
  function LastWritten(items: seq<Json>, f: Json -> Option<Json>): Option<Json>
    decreases |items|
  {
    if items == [] then None else Overwrite(f(items[0]), LastWritten(items[1..], f))
  }

  /** No item writes the field exactly when the scan leaves none; otherwise the last writer decides. */
  lemma {:induction false} LastWrittenFacts(pre: seq<Json>, x: Json, post: seq<Json>, f: Json -> Option<Json>)
    ensures LastWritten(pre + [x] + post, f).None? <==>
      f(x).None? && LastWritten(pre, f).None? && LastWritten(post, f).None?
    ensures f(x).Some? && LastWritten(post, f).None? ==> LastWritten(pre + [x] + post, f) == f(x)
    decreases |pre|
  {
    if pre == [] {
      assert pre + [x] + post == [x] + post;
      assert ([x] + post)[1..] == post;
    } else {
      assert (pre + [x] + post)[1..] == pre[1..] + [x] + post;
      LastWrittenFacts(pre[1..], x, post, f);
    }
  }

  /** Nothing is written exactly when no item writes. */
  lemma {:induction false} LastWrittenNone(items: seq<Json>, f: Json -> Option<Json>)
    ensures LastWritten(items, f).None? <==> forall j :: 0 <= j < |items| ==> f(items[j]).None?
    decreases |items|
  {
    if items != [] {
      LastWrittenNone(items[1..], f);
      assert forall j :: 0 < j < |items| ==> items[1..][j - 1] == items[j];
    }
  }

  /** The item at index i writes the field and no later item does: its value is the result. */
  lemma LastWrittenLast(items: seq<Json>, i: nat, f: Json -> Option<Json>)
    requires i < |items| && f(items[i]).Some?
    requires forall k :: i < k < |items| ==> f(items[k]).None?
    ensures LastWritten(items, f) == f(items[i])
  {
    var post := items[i + 1..];
    assert items == items[..i] + [items[i]] + post;
    LastWrittenNone(post, f);
    assert forall k :: 0 <= k < |post| ==> post[k] == items[i + 1 + k];
    LastWrittenFacts(items[..i], items[i], post, f);
  }

  /** What an item writes into the header field k: `item[k]` when it is a dict holding k. */
  function HeaderValue(k: string): Json -> Option<Json>
  {
    item => if HasKey(item, k) then Some(Get(item, k).value) else None
  }

  /** A probe that does not raise finds k exactly in a dict holding k. */
  lemma ProbeFinds(item: Json, k: string)
    requires Probe(item, k).Success?
    ensures Probe(item, k).value == HeaderValue(k)(item)
  {
  }

  lemma OverwriteTwice(a: Option<Json>, b: Option<Json>, c: Option<Json>)
    ensures Overwrite(Overwrite(a, b), c) == Overwrite(a, Overwrite(b, c))
  {
  }

  /**
   * The header scan of logic.py:126-133: each of key, id and name holds
   * the value of the last item holding that key, and keeps its old value
   * when no item holds it.
   */
  lemma {:induction false} HeadersWrite(out: TeamRecord, items: seq<Json>)
    requires HeadersFrom(out, items).Success?
    ensures HeadersFrom(out, items).value.teamKey == Overwrite(out.teamKey, LastWritten(items, HeaderValue("team_key")))
    ensures HeadersFrom(out, items).value.teamId == Overwrite(out.teamId, LastWritten(items, HeaderValue("team_id")))
    ensures HeadersFrom(out, items).value.name == Overwrite(out.name, LastWritten(items, HeaderValue("name")))
    decreases |items|
  {
    if items != [] {
      var x := items[0];
      ProbeFinds(x, "team_key");
      ProbeFinds(x, "team_id");
      ProbeFinds(x, "name");
      var out' := HeaderStep(out, x).value;
      HeadersWrite(out', items[1..]);
      OverwriteTwice(out.teamKey, HeaderValue("team_key")(x), LastWritten(items[1..], HeaderValue("team_key")));
      OverwriteTwice(out.teamId, HeaderValue("team_id")(x), LastWritten(items[1..], HeaderValue("team_id")));
      OverwriteTwice(out.name, HeaderValue("name")(x), LastWritten(items[1..], HeaderValue("name")));
    }
  }

  /** What a dict item with `team_stats` writes into `week`. */
  function WeekValue(item: Json): Option<Json>
  {
    if HasKey(item, "team_stats") && Get(Get(item, "team_stats").value, "week").Success? then
      Some(Get(Get(item, "team_stats").value, "week").value)
    else None
  }

  /** What a dict item with `team_remaining_games` writes into the n-th game count (0 remaining, 1 live, 2 completed). */
  function CountValue(n: nat): Json -> Option<Json>
  {
    item =>
      if HasKey(item, "team_remaining_games") && GameCounts(item).Success? then
        var c := GameCounts(item).value;
        Some(if n == 0 then c.0 else if n == 1 then c.1 else c.2)
      else None
  }

  lemma StatsPartWrites(out: TeamRecord, item: Json)
    requires StatsPart(out, item).Success?
    ensures StatsPart(out, item).value == out.(week := Overwrite(out.week, WeekValue(item)), stats := StatsPart(out, item).value.stats)
  {
  }

  lemma CountsPartWrites(out: TeamRecord, item: Json)
    requires CountsPart(out, item).Success?
    ensures CountsPart(out, item).value ==
      out.(remainingGames := Overwrite(out.remainingGames, CountValue(0)(item)),
           liveGames := Overwrite(out.liveGames, CountValue(1)(item)),
           completedGames := Overwrite(out.completedGames, CountValue(2)(item)))
  {
  }

  /** One pass of the item loop writes the week and the counts an item carries, and no header field. */
  lemma ItemStepWrites(out: TeamRecord, item: Json)
    requires ItemStep(out, item).Success?
    ensures ItemStep(out, item).value.week == Overwrite(out.week, WeekValue(item))
    ensures ItemStep(out, item).value.remainingGames == Overwrite(out.remainingGames, CountValue(0)(item))
    ensures ItemStep(out, item).value.liveGames == Overwrite(out.liveGames, CountValue(1)(item))
    ensures ItemStep(out, item).value.completedGames == Overwrite(out.completedGames, CountValue(2)(item))
    ensures ItemStep(out, item).value.(week := out.week, remainingGames := out.remainingGames,
      liveGames := out.liveGames, completedGames := out.completedGames, stats := out.stats) == out
  {
    if item.JObj? {
      StatsPartWrites(out, item);
      CountsPartWrites(StatsPart(out, item).value, item);
    }
  }

  /**
   * The item scan of logic.py:135-147: the week holds the value of the
   * last dict item with `team_stats`, each game count that of the last
   * dict item with `team_remaining_games`, and each keeps its old value
   * when no item carries it.
   */
  lemma {:induction false} ItemsWrite(out: TeamRecord, items: seq<Json>)
    requires ItemsFrom(out, items).Success?
    ensures ItemsFrom(out, items).value.week == Overwrite(out.week, LastWritten(items, WeekValue))
    ensures ItemsFrom(out, items).value.remainingGames == Overwrite(out.remainingGames, LastWritten(items, CountValue(0)))
    ensures ItemsFrom(out, items).value.liveGames == Overwrite(out.liveGames, LastWritten(items, CountValue(1)))
    ensures ItemsFrom(out, items).value.completedGames == Overwrite(out.completedGames, LastWritten(items, CountValue(2)))
    decreases |items|
  {
    if items != [] {
      var x := items[0];
      ItemStepWrites(out, x);
      var out' := ItemStep(out, x).value;
      ItemsWrite(out', items[1..]);
      OverwriteTwice(out.week, WeekValue(x), LastWritten(items[1..], WeekValue));
      OverwriteTwice(out.remainingGames, CountValue(0)(x), LastWritten(items[1..], CountValue(0)));
      OverwriteTwice(out.liveGames, CountValue(1)(x), LastWritten(items[1..], CountValue(1)));
      OverwriteTwice(out.completedGames, CountValue(2)(x), LastWritten(items[1..], CountValue(2)));
    }
  }

  // ------------------------------------------- the statistic slots of a team

  /** What a slot holds: None when it was never written (the cell stays None). */
  function SlotOf(stats: map<Label, Json>, l: Label): Option<Json>
  {
    if l in stats then Some(stats[l]) else None
  }

  /** A well-formed statistic with a known id naming slot l. */
  predicate Writes(stat: Json, l: Label)
  {
    Written(stat).Some? && Written(stat).value.0 == l
  }

  /** What a statistic writes into slot l. */
  function StatSlotValue(l: Label): Json -> Option<Json>
  {
    stat => if Writes(stat, l) then Some(Written(stat).value.1) else None
  }

  /** The `team_stats['stats']` list an item carries; empty when it carries none. */
  function ItemStats(item: Json): seq<Json>
  {
    if HasKey(item, "team_stats") && Get(Get(item, "team_stats").value, "stats").Success?
       && Iter(Get(Get(item, "team_stats").value, "stats").value).Success?
    then Iter(Get(Get(item, "team_stats").value, "stats").value).value
    else []
  }

  /** What an item writes into slot l: the value of the last statistic of its list naming l. */
  function ItemSlotValue(l: Label): Json -> Option<Json>
  {
    item => LastWritten(ItemStats(item), StatSlotValue(l))
  }

  lemma StatStepSlotValue(stats: map<Label, Json>, stat: Json, l: Label)
    requires StatStep(stats, stat).Success?
    ensures SlotOf(StatStep(stats, stat).value, l) == Overwrite(SlotOf(stats, l), StatSlotValue(l)(stat))
  {
    StatStepSlot(stats, stat);
  }

  /** Within one statistics list, slot l ends with the value of the last statistic naming it. */
  lemma {:induction false} StatsFromSlot(stats: map<Label, Json>, xs: seq<Json>, l: Label)
    requires StatsFrom(stats, xs).Success?
    ensures SlotOf(StatsFrom(stats, xs).value, l) == Overwrite(SlotOf(stats, l), LastWritten(xs, StatSlotValue(l)))
    decreases |xs|
  {
    if xs != [] {
      StatStepSlotValue(stats, xs[0], l);
      StatsFromSlot(StatStep(stats, xs[0]).value, xs[1..], l);
      OverwriteTwice(SlotOf(stats, l), StatSlotValue(l)(xs[0]), LastWritten(xs[1..], StatSlotValue(l)));
    }
  }

  lemma StatsPartSlot(out: TeamRecord, item: Json, l: Label)
    requires StatsPart(out, item).Success?
    ensures SlotOf(StatsPart(out, item).value.stats, l) == Overwrite(SlotOf(out.stats, l), ItemSlotValue(l)(item))
  {
    if HasKey(item, "team_stats") {
      StatsFromSlot(out.stats, ItemStats(item), l);
    }
  }

  lemma ItemStepSlot(out: TeamRecord, item: Json, l: Label)
    requires ItemStep(out, item).Success?
    ensures SlotOf(ItemStep(out, item).value.stats, l) == Overwrite(SlotOf(out.stats, l), ItemSlotValue(l)(item))
  {
    if item.JObj? {
      StatsPartSlot(out, item, l);
      CountsPartWrites(StatsPart(out, item).value, item);
    }
  }

  /**
   * The statistic slots are shared by every item of the loop of
   * logic.py:135-143: slot l ends with the value of the last item whose
   * statistics name it, and keeps its old value when none does.
   */
  lemma {:induction false} ItemsSlot(out: TeamRecord, items: seq<Json>, l: Label)
    requires ItemsFrom(out, items).Success?
    ensures SlotOf(ItemsFrom(out, items).value.stats, l) == Overwrite(SlotOf(out.stats, l), LastWritten(items, ItemSlotValue(l)))
    decreases |items|
  {
    if items != [] {
      ItemStepSlot(out, items[0], l);
      ItemsSlot(ItemStep(out, items[0]).value, items[1..], l);
      OverwriteTwice(SlotOf(out.stats, l), ItemSlotValue(l)(items[0]), LastWritten(items[1..], ItemSlotValue(l)));
    }
  }

  // ---------------------------------------------------------- whole records

  /** The record built for one team list (logic.py:111-150). */
  function Team(data: Json): Py<TeamRecord>
  {
    var first :- At(data, 0);
    var heads :- Iter(first);
    var out :- HeadersFrom(Blank, heads);
    ItemsFrom(out, Iter(data).value)
  }

  /**
   * Each flat field of a team's record: key, id and name from the last
   * entry of `data[0]` holding them, the week and the game counts from the
   * last item of `data` carrying them; None (the cell is None, NaN after
   * coercion) when no entry carries it.
   */
  lemma TeamFields(data: Json)
    requires Team(data).Success?
    ensures var heads := Iter(At(data, 0).value).value;
      && Team(data).value.teamKey == LastWritten(heads, HeaderValue("team_key"))
      && Team(data).value.teamId == LastWritten(heads, HeaderValue("team_id"))
      && Team(data).value.name == LastWritten(heads, HeaderValue("name"))
    ensures var items := Iter(data).value;
      && Team(data).value.week == LastWritten(items, WeekValue)
      && Team(data).value.remainingGames == LastWritten(items, CountValue(0))
      && Team(data).value.liveGames == LastWritten(items, CountValue(1))
      && Team(data).value.completedGames == LastWritten(items, CountValue(2))
  {
    var heads := Iter(At(data, 0).value).value;
    var out := HeadersFrom(Blank, heads).value;
    HeadersWrite(Blank, heads);
    HeadersKeepRest(Blank, heads);
    ItemsWrite(out, Iter(data).value);
    ItemsKeepHeaders(out, Iter(data).value);
  }

  /**
   * The statistic slots of a team's record: slot l holds the value of the
   * last item of `data` whose statistics name it, and is filled exactly
   * when some statistic in some item's list names it.
   */
  lemma TeamSlots(data: Json, l: Label)
    requires Team(data).Success?
    ensures SlotOf(Team(data).value.stats, l) == LastWritten(Iter(data).value, ItemSlotValue(l))
    ensures var items := Iter(data).value;
      l in Team(data).value.stats <==>
        exists i, j :: 0 <= i < |items| && 0 <= j < |ItemStats(items[i])| && Writes(ItemStats(items[i])[j], l)
  {
    var items := Iter(data).value;
    var heads := Iter(At(data, 0).value).value;
    HeadersKeepRest(Blank, heads);
    ItemsSlot(HeadersFrom(Blank, heads).value, items, l);
    LastWrittenNone(items, ItemSlotValue(l));
    forall i | 0 <= i < |items|
      ensures ItemSlotValue(l)(items[i]).None? <==>
        forall j :: 0 <= j < |ItemStats(items[i])| ==> StatSlotValue(l)(ItemStats(items[i])[j]).None?
    {
      LastWrittenNone(ItemStats(items[i]), StatSlotValue(l));
    }
  }

  /**
   * Later statistics overwrite earlier ones across the whole team: the last
   * statistic naming slot l, in the last item naming it, decides its value.
   */
  lemma TeamSlotLastWins(data: Json, l: Label, i: nat, j: nat)
    requires Team(data).Success?
    requires i < |Iter(data).value| && j < |ItemStats(Iter(data).value[i])|
    requires Writes(ItemStats(Iter(data).value[i])[j], l)
    requires forall j' :: j < j' < |ItemStats(Iter(data).value[i])| ==> !Writes(ItemStats(Iter(data).value[i])[j'], l)
    requires forall i', j' :: i < i' < |Iter(data).value| && 0 <= j' < |ItemStats(Iter(data).value[i'])| ==>
      !Writes(ItemStats(Iter(data).value[i'])[j'], l)
    ensures l in Team(data).value.stats
    ensures Team(data).value.stats[l] == Written(ItemStats(Iter(data).value[i])[j]).value.1
  {
    var items := Iter(data).value;
    var xs := ItemStats(items[i]);
    TeamSlots(data, l);
    LastWrittenLast(xs, j, StatSlotValue(l));
    forall i' | i < i' < |items| ensures ItemSlotValue(l)(items[i']).None? {
      LastWrittenNone(ItemStats(items[i']), StatSlotValue(l));
    }
    LastWrittenLast(items, i, ItemSlotValue(l));
  }

  method FlattenTeam(data: Json) returns (r: Py<TeamRecord>)
    ensures r == Team(data)
  {
    var first := At(data, 0);
    if first.Failure? { return Failure(first.error); }
    var heads := Iter(first.value);
    if heads.Failure? { return Failure(heads.error); }
    var out := ApplyHeaders(Blank, heads.value);
    if out.Failure? { return out; }
    r := ApplyItems(out.value, Iter(data).value);
  }

  function RecordsFrom(acc: seq<TeamRecord>, teams: seq<Json>): Py<seq<TeamRecord>>
    decreases |teams|
  {
    if teams == [] then Success(acc)
    else
      var rec :- Team(teams[0]);
      RecordsFrom(acc + [rec], teams[1..])
  }

  /** The records `list_of_dfs` collects (logic.py:108-154), one per team, in order. */
  function Records(teams: seq<Json>): Py<seq<TeamRecord>>
  {
    RecordsFrom([], teams)
  }

  method FlattenTeams(teams: seq<Json>) returns (r: Py<seq<TeamRecord>>)
    ensures r == Records(teams)
  {
    var acc: seq<TeamRecord> := [];
    var i := 0;
    while i < |teams|
      invariant 0 <= i <= |teams|
      invariant RecordsFrom(acc, teams[i..]) == Records(teams)
    {
      assert teams[i..][1..] == teams[i + 1..];
      var rec := FlattenTeam(teams[i]);
      if rec.Failure? { return Failure(rec.error); }
      acc := acc + [rec.value];
      i := i + 1;
    }
    return Success(acc);
  }

  /** One record per team, each the record of that team, in the same order. */
  lemma {:induction false} RecordsFromShape(acc: seq<TeamRecord>, teams: seq<Json>)
    ensures RecordsFrom(acc, teams).Success? <==> forall j :: 0 <= j < |teams| ==> Team(teams[j]).Success?
    ensures RecordsFrom(acc, teams).Success? ==>
      var rs := RecordsFrom(acc, teams).value;
      && |rs| == |acc| + |teams|
      && rs[..|acc|] == acc
      && forall j :: 0 <= j < |teams| ==> rs[|acc| + j] == Team(teams[j]).value
    decreases |teams|
  {
    if teams != [] {
      assert forall j :: 0 < j < |teams| ==> teams[1..][j - 1] == teams[j];
      match Team(teams[0])
      case Failure(_) =>
      case Success(rec) =>
        RecordsFromShape(acc + [rec], teams[1..]);
        if RecordsFrom(acc, teams).Success? {
          var rs := RecordsFrom(acc, teams).value;
          assert rs[..|acc| + 1] == acc + [rec];
          assert rs[..|acc|] == (acc + [rec])[..|acc|];
          forall j | 0 <= j < |teams| ensures rs[|acc| + j] == Team(teams[j]).value {
            if j == 0 { assert rs[|acc|] == (acc + [rec])[|acc|]; }
            else { assert rs[|acc| + j] == rs[|acc + [rec]| + (j - 1)]; }
          }
        }
    }
  }
}
