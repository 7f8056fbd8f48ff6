/**
 * Category wins per team in each matchup (`extract_stat_winners`,
 * logic.py:201-222) and the rows of the matchup table built from them
 * (logic.py:231-249): the two teams ordered so the higher-or-equal score
 * comes first, the score as text, and the leader or "Tie".
 */
module StatWinners {
  import opened Wrappers
  import opened PyJson
  import Text

  // ------------------------------------------------------------- counting

  /** A `Counter` as its items in insertion order: each key with its count. */
  type Counts = seq<(Json, nat)>

  /** The keys of a Counter, in insertion order (`list(counter.keys())`). */
  function Keys(t: Counts): (ks: seq<Json>)
    ensures |ks| == |t| && forall i :: 0 <= i < |t| ==> ks[i] == t[i].0
    decreases |t|
  {
    if t == [] then [] else [t[0].0] + Keys(t[1..])
  }

  /** The count of k, zero when k was never counted (`counter[k]`). */
  function CountOf(t: Counts, k: Json): nat
    decreases |t|
  {
    if t == [] then 0 else if t[0].0 == k then t[0].1 else CountOf(t[1..], k)
  }

  predicate DistinctKeys(t: Counts)
  {
    forall i, j :: 0 <= i < j < |t| ==> t[i].0 != t[j].0
  }

  /** Every item of a Counter built by counting has count at least one. */
  predicate Positive(t: Counts)
  {
    forall i :: 0 <= i < |t| ==> t[i].1 >= 1
  }

  /** The sum of the counts. */
  function Total(t: Counts): nat
    decreases |t|
  {
    if t == [] then 0 else t[0].1 + Total(t[1..])
  }

  /** Counting one more k: its count goes up by one, a new key goes last. */
  function Bump(t: Counts, k: Json): Counts
    decreases |t|
  {
    if t == [] then [(k, 1)]
    else if t[0].0 == k then [(k, t[0].1 + 1)] + t[1..]
    else [t[0]] + Bump(t[1..], k)
  }

  /** A known key keeps its place; a new key is appended. */
  lemma {:induction false} BumpKeys(t: Counts, k: Json)
    ensures Keys(Bump(t, k)) == if k in Keys(t) then Keys(t) else Keys(t) + [k]
    decreases |t|
  {
    if t != [] && t[0].0 != k {
      BumpKeys(t[1..], k);
      assert Keys(t) == [t[0].0] + Keys(t[1..]);
      assert k in Keys(t) <==> k in Keys(t[1..]);
    }
  }

  lemma {:induction false} BumpCount(t: Counts, k: Json, j: Json)
    ensures CountOf(Bump(t, k), j) == CountOf(t, j) + (if j == k then 1 else 0)
    decreases |t|
  {
    if t != [] && t[0].0 != k {
      BumpCount(t[1..], k, j);
    }
  }

  lemma {:induction false} BumpTotal(t: Counts, k: Json)
    ensures Total(Bump(t, k)) == Total(t) + 1
    ensures Positive(t) ==> Positive(Bump(t, k))
    decreases |t|
  {
    if t != [] && t[0].0 != k {
      BumpTotal(t[1..], k);
      assert Positive(t) ==> Positive(t[1..]) by {
        assert forall i :: 0 <= i < |t[1..]| ==> t[1..][i] == t[i + 1];
      }
    }
  }

  lemma BumpDistinct(t: Counts, k: Json)
    requires DistinctKeys(t)
    ensures DistinctKeys(Bump(t, k))
  {
    BumpKeys(t, k);
    var ks := Keys(Bump(t, k));
    forall i, j | 0 <= i < j < |Bump(t, k)| ensures Bump(t, k)[i].0 != Bump(t, k)[j].0 {
      assert ks[i] == Bump(t, k)[i].0 && ks[j] == Bump(t, k)[j].0;
      if k !in Keys(t) && j == |t| {
        assert ks[i] == Keys(t)[i];
      } else {
        assert ks[i] == Keys(t)[i] && ks[j] == Keys(t)[j];
      }
    }
  }

  /** The counts after adding every key of ks, in order, to t. */
  function TallyFrom(t: Counts, ks: seq<Json>): Counts
    decreases |ks|
  {
    if ks == [] then t else TallyFrom(Bump(t, ks[0]), ks[1..])
  }

  /** `Counter(ks)` */
  function Tally(ks: seq<Json>): Counts
  {
    TallyFrom([], ks)
  }

  lemma {:induction false} TallyFromCount(t: Counts, ks: seq<Json>, j: Json)
    ensures CountOf(TallyFrom(t, ks), j) == CountOf(t, j) + multiset(ks)[j]
    decreases |ks|
  {
    if ks != [] {
      BumpCount(t, ks[0], j);
      TallyFromCount(Bump(t, ks[0]), ks[1..], j);
      assert ks == [ks[0]] + ks[1..];
      assert multiset(ks) == multiset{ks[0]} + multiset(ks[1..]);
    }
  }

  lemma {:induction false} TallyFromShape(t: Counts, ks: seq<Json>)
    requires DistinctKeys(t) && Positive(t)
    ensures DistinctKeys(TallyFrom(t, ks)) && Positive(TallyFrom(t, ks))
    ensures Total(TallyFrom(t, ks)) == Total(t) + |ks|
    ensures Keys(t) <= Keys(TallyFrom(t, ks))
    ensures forall j :: j in Keys(TallyFrom(t, ks)) <==> j in Keys(t) || j in ks
    decreases |ks|
  {
    if ks != [] {
      BumpKeys(t, ks[0]);
      BumpTotal(t, ks[0]);
      BumpDistinct(t, ks[0]);
      TallyFromShape(Bump(t, ks[0]), ks[1..]);
      assert forall j :: j in ks <==> j == ks[0] || j in ks[1..];
    }
  }

  /** Where x first occurs in ks. */
  function FirstIndex(ks: seq<Json>, x: Json): (r: nat)
    requires x in ks
    ensures r < |ks| && ks[r] == x && forall i :: 0 <= i < r ==> ks[i] != x
    decreases |ks|
  {
    if ks[0] == x then 0 else 1 + FirstIndex(ks[1..], x)
  }

  /** Counting one more key at the end is one more Bump. */
  lemma {:induction false} TallyFromSnoc(t: Counts, ks: seq<Json>, x: Json)
    ensures TallyFrom(t, ks + [x]) == Bump(TallyFrom(t, ks), x)
    decreases |ks|
  {
    if ks == [] {
      assert ([] + [x])[1..] == [];
    } else {
      assert (ks + [x])[1..] == ks[1..] + [x];
      TallyFromSnoc(Bump(t, ks[0]), ks[1..], x);
    }
  }

  /** A key already in ks keeps its first position when one more key is appended. */
  lemma FirstIndexSnoc(ks: seq<Json>, x: Json, y: Json)
    requires y in ks
    ensures FirstIndex(ks + [x], y) == FirstIndex(ks, y)
  {
    assert forall i :: 0 <= i < |ks| ==> (ks + [x])[i] == ks[i];
  }

  /** The keys, all drawn from ks, in the order of their first occurrences in ks. */
  ghost predicate FirstOrder(ks: seq<Json>, keys: seq<Json>)
  {
    forall i, j :: 0 <= i < j < |keys| ==>
      keys[i] in ks && keys[j] in ks && FirstIndex(ks, keys[i]) < FirstIndex(ks, keys[j])
  }

  /** Appending x to ks, and x to the keys when it is new, keeps that order. */
  lemma OrderSnoc(p: seq<Json>, x: Json, kp: seq<Json>)
    requires FirstOrder(p, kp) && (forall y :: y in kp <==> y in p)
    ensures FirstOrder(p + [x], if x in kp then kp else kp + [x])
  {
    var ks := p + [x];
    var kk := if x in kp then kp else kp + [x];
    forall y | y in kp ensures FirstIndex(ks, y) == FirstIndex(p, y) {
      FirstIndexSnoc(p, x, y);
    }
    if x !in kp {
      assert forall i :: 0 <= i < |p| ==> ks[i] == p[i];
      assert ks[|p|] == x;
    }
    forall i, j | 0 <= i < j < |kk|
      ensures kk[i] in ks && kk[j] in ks && FirstIndex(ks, kk[i]) < FirstIndex(ks, kk[j])
    {
      assert kk[i] == kp[i] && kp[i] in kp;
      if j < |kp| {
        assert kk[j] == kp[j] && kp[j] in kp;
      }
    }
  }

  /** The Counter's keys appear in the order of their first occurrences. */
  lemma {:induction false} TallyOrder(ks: seq<Json>)
    ensures FirstOrder(ks, Keys(Tally(ks)))
    decreases |ks|
  {
    if ks == [] {
      assert Tally(ks) == [];
    } else {
      var p, x := ks[..|ks| - 1], ks[|ks| - 1];
      assert ks == p + [x];
      TallyFromSnoc([], p, x);
      BumpKeys(Tally(p), x);
      TallyFromShape([], p);
      TallyOrder(p);
      OrderSnoc(p, x, Keys(Tally(p)));
    }
  }

  /**
   * Each key counts its own occurrences; the keys are the keys counted,
   * each once, the first one first; the counts add up to the number of keys.
   */
  lemma TallyCounts(ks: seq<Json>)
    ensures DistinctKeys(Tally(ks)) && Positive(Tally(ks))
    ensures forall j :: CountOf(Tally(ks), j) == multiset(ks)[j]
    ensures forall j :: j in Keys(Tally(ks)) <==> j in ks
    ensures Total(Tally(ks)) == |ks|
    ensures ks != [] ==> Tally(ks)[0].0 == ks[0]
    ensures forall i, j :: 0 <= i < j < |Tally(ks)| ==>
      Keys(Tally(ks))[i] in ks && Keys(Tally(ks))[j] in ks &&
      FirstIndex(ks, Keys(Tally(ks))[i]) < FirstIndex(ks, Keys(Tally(ks))[j])
  {
    TallyOrder(ks);
    TallyFromShape([], ks);
    forall j ensures CountOf(Tally(ks), j) == multiset(ks)[j] {
      TallyFromCount([], ks, j);
    }
    if ks != [] {
      TallyFromShape([(ks[0], 1)], ks[1..]);
      assert Tally(ks) == TallyFrom([(ks[0], 1)], ks[1..]);
      assert Keys([(ks[0], 1)]) == [ks[0]];
    }
  }

  // ----------------------------------------------------------- the scan

  /**
   * The key one stat_winner entry contributes to the Counter: none when it
   * is not a dict, has no "stat_winner" or names no "winner_team_key";
   * otherwise the key, which must be hashable. The membership test and the
   * subscript raise what Python raises for a list, string or scalar there.
   */
  function EntryKey(sw: Json): (r: Py<Option<Json>>)
    ensures !HasKey(sw, "stat_winner") ==> r == Success(None)
    ensures HasKey(sw, "stat_winner") && Get(sw, "stat_winner").value.JObj? ==>
      (HasKey(Get(sw, "stat_winner").value, "winner_team_key") <==> r.Failure? || r.value.Some?)
    ensures r.Success? && r.value.Some? ==> Hashable(r.value.value)
  {
    if !HasKey(sw, "stat_winner") then Success(None)
    else
      var inner := Get(sw, "stat_winner").value;
      var present :- Contains(inner, "winner_team_key");
      if !present then Success(None)
      else
        var key :- Get(inner, "winner_team_key");
        if Hashable(key) then Success(Some(key)) else Failure(TypeError)
  }

  /** The keys the generator of logic.py:215-219 yields after `acc`, stopping at the first error. */
  function KeysFrom(acc: seq<Json>, entries: seq<Json>): Py<seq<Json>>
    decreases |entries|
  {
    if entries == [] then Success(acc)
    else
      var k :- EntryKey(entries[0]);
      KeysFrom(if k.Some? then acc + [k.value] else acc, entries[1..])
  }

  function WinnerKeys(entries: seq<Json>): Py<seq<Json>>
  {
    KeysFrom([], entries)
  }

  /** The number of entries that name k as their winner. */
  function Naming(entries: seq<Json>, k: Json): nat
    decreases |entries|
  {
    if entries == [] then 0
    else (if EntryKey(entries[0]) == Success(Some(k)) then 1 else 0) + Naming(entries[1..], k)
  }

  lemma {:induction false} KeysFromFacts(acc: seq<Json>, entries: seq<Json>)
    ensures KeysFrom(acc, entries).Success? <==> forall i :: 0 <= i < |entries| ==> EntryKey(entries[i]).Success?
    ensures KeysFrom(acc, entries).Success? ==>
      && |KeysFrom(acc, entries).value| <= |acc| + |entries|
      && forall k :: multiset(KeysFrom(acc, entries).value)[k] == multiset(acc)[k] + Naming(entries, k)
    decreases |entries|
  {
    if entries != [] {
      assert forall i :: 0 < i < |entries| ==> entries[1..][i - 1] == entries[i];
      match EntryKey(entries[0])
      case Failure(_) =>
      case Success(k) =>
        var acc' := if k.Some? then acc + [k.value] else acc;
        KeysFromFacts(acc', entries[1..]);
        if k.Some? { assert multiset(acc') == multiset(acc) + multiset{k.value}; }
    }
  }

  /** The stat_winner entries of one matchup (logic.py:212-213), as the loop visits them. */
  function Entries(matchupData: Json): Py<seq<Json>>
    requires matchupData.JObj?
  {
    var matchup := GetOr(matchupData, "matchup", EmptyDict).value;
    var winners :- GetOr(matchup, "stat_winners", EmptyList);
    Iter(winners)
  }

  /** `dict(team_win_count)` for one matchup entry (logic.py:212-220). */
  function MatchupTally(matchupData: Json): Py<Counts>
    requires matchupData.JObj?
  {
    var entries :- Entries(matchupData);
    var keys :- WinnerKeys(entries);
    Success(Tally(keys))
  }

  /**
   * A matchup's tally gives each team the number of entries naming it; the
   * counts add up to at most the number of entries.
   */
  lemma MatchupTallyCounts(matchupData: Json)
    requires matchupData.JObj? && MatchupTally(matchupData).Success?
    ensures Entries(matchupData).Success?
    ensures forall k :: CountOf(MatchupTally(matchupData).value, k) == Naming(Entries(matchupData).value, k)
    ensures Total(MatchupTally(matchupData).value) <= |Entries(matchupData).value|
    ensures DistinctKeys(MatchupTally(matchupData).value)
  {
    var entries := Entries(matchupData).value;
    KeysFromFacts([], entries);
    var keys := WinnerKeys(entries).value;
    TallyCounts(keys);
  }

  /** The results dict: matchup id to tally, in insertion order. */
  type Results = seq<(string, Counts)>

  /** `results[k] = v`: an existing key keeps its place, a new key goes last. */
  function Put(rs: Results, k: string, v: Counts): (r: Results)
    ensures (k, v) in r
    ensures forall e :: e in r ==> e == (k, v) || e in rs
    ensures forall e :: e in rs && e.0 != k ==> e in r
    decreases |rs|
  {
    if rs == [] then [(k, v)]
    else if rs[0].0 == k then [(k, v)] + rs[1..]
    else [rs[0]] + Put(rs[1..], k, v)
  }

  /** The loop of logic.py:208-220 over the remaining matchup items. */
  function ResultsFrom(rs: Results, items: seq<(string, Json)>): Py<Results>
    decreases |items|
  {
    if items == [] then Success(rs)
    else if !items[0].1.JObj? then ResultsFrom(rs, items[1..])
    else
      var t :- MatchupTally(items[0].1);
      ResultsFrom(Put(rs, items[0].0, t), items[1..])
  }

  /** `data.get("0", {}).get("matchups", {})`, then its items; each `get` needs a dict. */
  function MatchupItems(data: Json): Py<seq<(string, Json)>>
  {
    var zero :- GetOr(data, "0", EmptyDict);
    var matchups :- GetOr(zero, "matchups", EmptyDict);
    if matchups.JObj? then Success(matchups.fields) else Failure(AttributeError)
  }

  /** `extract_stat_winners(data)` */
  function StatWinnerCounts(data: Json): Py<Results>
  {
    var items :- MatchupItems(data);
    ResultsFrom([], items)
  }

  method ExtractStatWinners(data: Json) returns (r: Py<Results>)
    ensures r == StatWinnerCounts(data)
  {
    var items := MatchupItems(data);
    if items.Failure? { return Failure(items.error); }
    var results: Results := [];
    var i := 0;
    while i < |items.value|
      invariant 0 <= i <= |items.value|
      invariant ResultsFrom(results, items.value[i..]) == StatWinnerCounts(data)
    {
      assert items.value[i..][1..] == items.value[i + 1..];
      var (id, matchupData) := items.value[i];
      if matchupData.JObj? {
        var t := MatchupTally(matchupData);
        if t.Failure? { return Failure(t.error); }
        results := Put(results, id, t.value);
      }
      i := i + 1;
    }
    return Success(results);
  }

  /** A matchup entry that is not a dict leaves the results as they were. */
  lemma NonDictSkipped(rs: Results, id: string, x: Json, rest: seq<(string, Json)>)
    requires !x.JObj?
    ensures ResultsFrom(rs, [(id, x)] + rest) == ResultsFrom(rs, rest)
  {
    assert ([(id, x)] + rest)[1..] == rest;
  }

  /** Every matchup id in the results comes from a dict entry and holds that entry's tally. */
  lemma {:induction false} ResultsFromDicts(rs: Results, items: seq<(string, Json)>, e: (string, Counts))
    requires ResultsFrom(rs, items).Success? && e in ResultsFrom(rs, items).value
    ensures || e in rs
            || exists i :: 0 <= i < |items| && items[i].1.JObj? && items[i].0 == e.0 && MatchupTally(items[i].1) == Success(e.1)
    decreases |items|
  {
    if items != [] {
      var rest := items[1..];
      var rs' := if items[0].1.JObj? then Put(rs, items[0].0, MatchupTally(items[0].1).value) else rs;
      assert ResultsFrom(rs, items) == ResultsFrom(rs', rest);
      ResultsFromDicts(rs', rest, e);
      if e !in rs' {
        var i :| 0 <= i < |rest| && rest[i].1.JObj? && rest[i].0 == e.0 && MatchupTally(rest[i].1) == Success(e.1);
        assert items[i + 1] == rest[i];
      } else if e !in rs {
        assert items[0].1.JObj? && e == (items[0].0, MatchupTally(items[0].1).value);
      }
    }
  }

  /** An entry no later dict item names survives the rest of the loop. */
  lemma {:induction false} ResultsFromKeeps(rs: Results, items: seq<(string, Json)>, e: (string, Counts))
    requires ResultsFrom(rs, items).Success? && e in rs
    requires forall j :: 0 <= j < |items| && items[j].1.JObj? ==> items[j].0 != e.0
    ensures e in ResultsFrom(rs, items).value
    decreases |items|
  {
    if items != [] {
      var rest := items[1..];
      var rs' := if items[0].1.JObj? then Put(rs, items[0].0, MatchupTally(items[0].1).value) else rs;
      assert ResultsFrom(rs, items) == ResultsFrom(rs', rest);
      forall j | 0 <= j < |rest| && rest[j].1.JObj? ensures rest[j].0 != e.0 {
        assert rest[j] == items[j + 1];
      }
      ResultsFromKeeps(rs', rest, e);
    }
  }

  /**
   * Every dict entry whose id no later dict entry repeats is in the
   * results, under its id, with its own tally.
   */
  lemma {:induction false} ResultsFromComplete(rs: Results, items: seq<(string, Json)>, i: nat)
    requires ResultsFrom(rs, items).Success? && i < |items| && items[i].1.JObj?
    requires forall j :: i < j < |items| && items[j].1.JObj? ==> items[j].0 != items[i].0
    ensures MatchupTally(items[i].1).Success?
    ensures (items[i].0, MatchupTally(items[i].1).value) in ResultsFrom(rs, items).value
    decreases |items|
  {
    var rest := items[1..];
    var rs' := if items[0].1.JObj? then Put(rs, items[0].0, MatchupTally(items[0].1).value) else rs;
    assert ResultsFrom(rs, items) == ResultsFrom(rs', rest);
    if i == 0 {
      forall j | 0 <= j < |rest| && rest[j].1.JObj? ensures rest[j].0 != items[0].0 {
        assert rest[j] == items[j + 1];
      }
      ResultsFromKeeps(rs', rest, (items[0].0, MatchupTally(items[0].1).value));
    } else {
      assert rest[i - 1] == items[i];
      forall j | i - 1 < j < |rest| && rest[j].1.JObj? ensures rest[j].0 != rest[i - 1].0 {
        assert rest[j] == items[j + 1];
      }
      ResultsFromComplete(rs', rest, i - 1);
    }
  }

  /** The loop raises exactly when the tally of some dict entry raises. */
  lemma {:induction false} ResultsFromSucceeds(rs: Results, items: seq<(string, Json)>)
    ensures ResultsFrom(rs, items).Success? <==>
      forall i :: 0 <= i < |items| && items[i].1.JObj? ==> MatchupTally(items[i].1).Success?
    decreases |items|
  {
    if items != [] {
      var rest := items[1..];
      assert forall i :: 0 < i < |items| ==> items[i] == rest[i - 1];
      if items[0].1.JObj? && MatchupTally(items[0].1).Failure? {
      } else {
        var rs' := if items[0].1.JObj? then Put(rs, items[0].0, MatchupTally(items[0].1).value) else rs;
        assert ResultsFrom(rs, items) == ResultsFrom(rs', rest);
        ResultsFromSucceeds(rs', rest);
      }
    }
  }

  /**
   * `extract_stat_winners` succeeds exactly when the matchup items can be
   * read and every dict entry among them can be tallied; its results then
   * hold each dict entry's tally under the entry's id (the last such entry
   * when an id repeats), and nothing else.
   */
  lemma StatWinnerCountsFacts(data: Json)
    ensures StatWinnerCounts(data).Success? <==>
      && MatchupItems(data).Success?
      && forall i :: 0 <= i < |MatchupItems(data).value| && MatchupItems(data).value[i].1.JObj? ==>
           MatchupTally(MatchupItems(data).value[i].1).Success?
    ensures StatWinnerCounts(data).Success? ==>
      var items := MatchupItems(data).value;
      && (forall i :: 0 <= i < |items| && items[i].1.JObj? && (forall j :: i < j < |items| && items[j].1.JObj? ==> items[j].0 != items[i].0) ==>
            (items[i].0, MatchupTally(items[i].1).value) in StatWinnerCounts(data).value)
      && (forall e :: e in StatWinnerCounts(data).value ==>
            exists i :: 0 <= i < |items| && items[i].1.JObj? && items[i].0 == e.0 && MatchupTally(items[i].1) == Success(e.1))
  {
    if MatchupItems(data).Success? {
      var items := MatchupItems(data).value;
      ResultsFromSucceeds([], items);
      if StatWinnerCounts(data).Success? {
        forall i | 0 <= i < |items| && items[i].1.JObj? && (forall j :: i < j < |items| && items[j].1.JObj? ==> items[j].0 != items[i].0)
          ensures (items[i].0, MatchupTally(items[i].1).value) in StatWinnerCounts(data).value
        {
          ResultsFromComplete([], items, i);
        }
        forall e | e in StatWinnerCounts(data).value
          ensures exists i :: 0 <= i < |items| && items[i].1.JObj? && items[i].0 == e.0 && MatchupTally(items[i].1) == Success(e.1)
        {
          ResultsFromDicts([], items, e);
        }
      }
    }
  }

  // --------------------------------------------------- leader and score

  /** The two teams of one matchup, the higher-or-equal score first. */
  datatype Standing = Standing(teamA: Json, teamB: Json, scoreA: nat, scoreB: nat)

  /** logic.py:233-241: fewer than two counted teams is an IndexError. */
  function Order(winners: Counts): (r: Py<Standing>)
    ensures r.Success? <==> |winners| >= 2
    ensures r.Success? ==>
      && r.value.scoreA >= r.value.scoreB
      && multiset{(r.value.teamA, r.value.scoreA), (r.value.teamB, r.value.scoreB)} == multiset{winners[0], winners[1]}
      && (winners[0].1 >= winners[1].1 ==> r.value.teamA == winners[0].0)
  {
    if |winners| < 2 then Failure(IndexError)
    else if winners[0].1 >= winners[1].1 then Success(Standing(winners[0].0, winners[1].0, winners[0].1, winners[1].1))
    else Success(Standing(winners[1].0, winners[0].0, winners[1].1, winners[0].1))
  }

  /** `team_ids` (logic.py:19-28). */
  const TeamIds: seq<(string, string)> :=
    [ ("454.l.74601.t.1", "Sam's Swag Team"),
      ("454.l.74601.t.2", "Doomenshmirtz Evil Inc."),
      ("454.l.74601.t.3", "Chunch's Challengers"),
      ("454.l.74601.t.4", "Han Da Dons"),
      ("454.l.74601.t.5", "Tyshiii"),
      ("454.l.74601.t.6", "Neal's Fascinating Team"),
      ("454.l.74601.t.7", "Driton's Dazzling Team"),
      ("454.l.74601.t.8", "ariel's Wonderful Team"),
      ("454.l.74601.t.9", "THE REAL MIAMI HEAT"),
      ("454.l.74601.t.10", "darius") ]

  function NameIn(ids: seq<(string, string)>, key: string): (r: Option<string>)
    ensures r.Some? ==> (key, r.value) in ids
    ensures r.None? ==> forall i :: 0 <= i < |ids| ==> ids[i].0 != key
  {
    if ids == [] then None else if ids[0].0 == key then Some(ids[0].1) else NameIn(ids[1..], key)
  }

  /** `team_ids[key]`: a KeyError for any key that is not one of the league's team keys. */
  function TeamName(key: Json): (r: Py<string>)
    ensures r.Success? <==> key.JStr? && NameIn(TeamIds, key.s).Some?
  {
    if key.JStr? && NameIn(TeamIds, key.s).Some? then Success(NameIn(TeamIds, key.s).value) else Failure(KeyError)
  }

  /** No team of the league is called "Tie". */
  lemma NoTeamCalledTie(key: Json)
    requires TeamName(key).Success?
    ensures TeamName(key).value != "Tie"
  {
    var n := TeamName(key).value;
    assert (key.s, n) in TeamIds;
  }

  /** One row of `df_matchups`. */
  datatype MatchupRow = MatchupRow(matchup: string, score: string, lead: string)

  /** `f"{score_a} - {score_b}"` */
  function ScoreText(a: nat, b: nat): string
  {
    Text.NatToString(a) + " - " + Text.NatToString(b)
  }

  /** The dict literal of logic.py:245-249, its entries evaluated in order. */
  function Render(s: Standing): Py<MatchupRow>
  {
    var a :- TeamName(s.teamA);
    var b :- TeamName(s.teamB);
    Success(MatchupRow(a + " vs. " + b, ScoreText(s.scoreA, s.scoreB), if s.scoreA > s.scoreB then a else "Tie"))
  }

  /** The row of one matchup's tally. */
  function MatchupRowOf(winners: Counts): Py<MatchupRow>
  {
    var s :- Order(winners);
    Render(s)
  }

  /**
   * The leader is the first-listed team exactly when it has strictly more
   * category wins; equal wins read "Tie". The Matchup text names the two
   * teams in that order.
   */
  lemma LeadIsStrictWinner(winners: Counts)
    requires MatchupRowOf(winners).Success?
    ensures Order(winners).Success? && TeamName(Order(winners).value.teamA).Success?
    ensures var s := Order(winners).value;
      var row := MatchupRowOf(winners).value;
      && (row.lead == "Tie" <==> s.scoreA == s.scoreB)
      && (row.lead != "Tie" ==> row.lead == TeamName(s.teamA).value)
      && row.matchup == TeamName(s.teamA).value + " vs. " + TeamName(s.teamB).value
      && row.score == ScoreText(s.scoreA, s.scoreB)
  {
    var s := Order(winners).value;
    assert MatchupRowOf(winners) == Render(s);
    RenderFacts(s);
  }

  /** A rendered row: the lead is "Tie" exactly on equal scores, and otherwise the first team's name. */
  lemma RenderFacts(s: Standing)
    requires Render(s).Success? && s.scoreA >= s.scoreB
    ensures TeamName(s.teamA).Success? && TeamName(s.teamB).Success?
    ensures var row := Render(s).value;
      && (row.lead == "Tie" <==> s.scoreA == s.scoreB)
      && (row.lead != "Tie" ==> row.lead == TeamName(s.teamA).value)
      && row.matchup == TeamName(s.teamA).value + " vs. " + TeamName(s.teamB).value
      && row.score == ScoreText(s.scoreA, s.scoreB)
  {
    NoTeamCalledTie(s.teamA);
  }

  /** The score text can be read back: distinct scores give distinct texts. */
  lemma ScoreTextInjective(a: nat, b: nat, c: nat, d: nat)
    requires ScoreText(a, b) == ScoreText(c, d)
    ensures a == c && b == d
  {
    var x, y, x', y' := Text.NatToString(a), Text.NatToString(b), Text.NatToString(c), Text.NatToString(d);
    SplitAtSeparator(x, y, x', y');
    Text.NatToStringInjective(a, c);
    Text.NatToStringInjective(b, d);
  }

  /** In `x + " - " + y` with x all digits, the first non-digit sits right after x. */
  lemma SeparatorAt(x: string, y: string)
    requires Text.AllDigits(x)
    ensures (x + " - " + y)[|x|] == ' '
    ensures forall i :: 0 <= i < |x| ==> Text.IsDigit((x + " - " + y)[i])
  {
    var s := x + " - " + y;
    forall i | 0 <= i < |x| ensures Text.IsDigit(s[i]) { assert s[i] == x[i]; }
  }

  lemma SplitAtSeparator(x: string, y: string, x': string, y': string)
    requires Text.AllDigits(x) && Text.AllDigits(x')
    requires x + " - " + y == x' + " - " + y'
    ensures x == x'
    ensures y == y'
  {
    var s := x + " - " + y;
    SeparatorAt(x, y);
    SeparatorAt(x', y');
    if |x| == |x'| {
      assert x == s[..|x|] == x';
      assert y == s[|x| + 3..] == y';
    } else {
      assert false;
    }
  }

  /** Applies f to each element in order after `acc`, stopping at the first error. */
  function MapFrom<A, B>(acc: seq<B>, xs: seq<A>, f: A -> Py<B>): Py<seq<B>>
    decreases |xs|
  {
    if xs == [] then Success(acc)
    else
      var y :- f(xs[0]);
      MapFrom(acc + [y], xs[1..], f)
  }

  /** One output per input, in order, unless some input fails. */
  lemma {:induction false} MapFromShape<A, B>(acc: seq<B>, xs: seq<A>, f: A -> Py<B>)
    ensures MapFrom(acc, xs, f).Success? <==> forall m :: 0 <= m < |xs| ==> f(xs[m]).Success?
    ensures MapFrom(acc, xs, f).Success? ==>
      && |MapFrom(acc, xs, f).value| == |acc| + |xs|
      && MapFrom(acc, xs, f).value[..|acc|] == acc
      && forall m :: 0 <= m < |xs| ==> MapFrom(acc, xs, f).value[|acc| + m] == f(xs[m]).value
    decreases |xs|
  {
    if xs != [] {
      assert forall m :: 0 < m < |xs| ==> xs[1..][m - 1] == xs[m];
      var y0 := f(xs[0]);
      if y0.Success? {
        var acc' := acc + [y0.value];
        MapFromShape(acc', xs[1..], f);
        if MapFrom(acc, xs, f).Success? {
          var out := MapFrom(acc, xs, f).value;
          assert out == MapFrom(acc', xs[1..], f).value;
          assert out[..|acc'|] == acc';
          assert out[..|acc|] == acc'[..|acc|] == acc;
          forall m | 0 <= m < |xs| ensures out[|acc| + m] == f(xs[m]).value {
            if m == 0 { assert out[|acc|] == acc'[|acc|]; }
            else { assert out[|acc| + m] == out[|acc'| + (m - 1)]; }
          }
        }
      }
    }
  }

  /** The row of one results item. */
  function RowOfItem(item: (string, Counts)): Py<MatchupRow>
  {
    MatchupRowOf(item.1)
  }

  /** The rows of logic.py:231-249, one per matchup, stopping at the first error. */
  function MatchupRows(rs: Results): Py<seq<MatchupRow>>
  {
    MapFrom([], rs, RowOfItem)
  }

  method FlattenMatchupWinners(rs: Results) returns (r: Py<seq<MatchupRow>>)
    ensures r == MatchupRows(rs)
  {
    var acc: seq<MatchupRow> := [];
    var i := 0;
    while i < |rs|
      invariant 0 <= i <= |rs|
      invariant MapFrom(acc, rs[i..], RowOfItem) == MatchupRows(rs)
    {
      assert rs[i..][1..] == rs[i + 1..];
      var row := MatchupRowOf(rs[i].1);
      if row.Failure? { return Failure(row.error); }
      acc := acc + [row.value];
      i := i + 1;
    }
    return Success(acc);
  }

  /** One row per matchup, in the order of the results, or the first matchup's error. */
  lemma MatchupRowsShape(rs: Results)
    ensures MatchupRows(rs).Success? <==> forall m :: 0 <= m < |rs| ==> MatchupRowOf(rs[m].1).Success?
    ensures MatchupRows(rs).Success? ==>
      && |MatchupRows(rs).value| == |rs|
      && forall m :: 0 <= m < |rs| ==> MatchupRows(rs).value[m] == MatchupRowOf(rs[m].1).value
  {
    MapFromShape([], rs, RowOfItem);
  }

  /** `get_matchups_df` on the current week's decoded response. */
  function MatchupsTable(response: Json): Py<seq<MatchupRow>>
  {
    var scoreboard :- Path(response, [Key("fantasy_content"), Key("league"), Index(1), Key("scoreboard")]);
    var rs :- StatWinnerCounts(scoreboard);
    MatchupRows(rs)
  }

  // ------------------------------------------------------------- examples

  const TeamOne: Json := JStr("454.l.74601.t.1")
  const TeamTwo: Json := JStr("454.l.74601.t.2")

  const NameOne := "Sam's Swag Team"
  const NameTwo := "Doomenshmirtz Evil Inc."

  lemma ExampleNames()
    ensures TeamName(TeamOne) == Success(NameOne)
    ensures TeamName(TeamTwo) == Success(NameTwo)
  {
    assert TeamIds[0].0 != TeamTwo.s by { assert TeamIds[0].0[14] != TeamTwo.s[14]; }
    assert NameIn(TeamIds, TeamTwo.s) == NameIn(TeamIds[1..], TeamTwo.s);
  }

  lemma ExampleScores()
    ensures ScoreText(6, 3) == "6 - 3"
    ensures ScoreText(5, 5) == "5 - 5"
  {
    assert Text.NatToString(6) == "6" && Text.NatToString(3) == "3" && Text.NatToString(5) == "5";
  }

  /** Six category wins to three: the first team leads. */
  lemma LeaderExample()
    ensures MatchupRowOf([(TeamOne, 6), (TeamTwo, 3)]) == Success(MatchupRow(NameOne + " vs. " + NameTwo, "6 - 3", NameOne))
  {
    var st := Standing(TeamOne, TeamTwo, 6, 3);
    assert Order([(TeamOne, 6), (TeamTwo, 3)]) == Success(st);
    ExampleNames();
    ExampleScores();
  }

  /** Three to six: the teams swap so the leader comes first. */
  lemma TrailerFirstExample()
    ensures MatchupRowOf([(TeamOne, 3), (TeamTwo, 6)]) == Success(MatchupRow(NameTwo + " vs. " + NameOne, "6 - 3", NameTwo))
  {
    var st := Standing(TeamTwo, TeamOne, 6, 3);
    assert Order([(TeamOne, 3), (TeamTwo, 6)]) == Success(st);
    ExampleNames();
    ExampleScores();
  }

  /** Five all: a tie, the first-counted team listed first. */
  lemma TieExample()
    ensures MatchupRowOf([(TeamOne, 5), (TeamTwo, 5)]) == Success(MatchupRow(NameOne + " vs. " + NameTwo, "5 - 5", "Tie"))
  {
    var st := Standing(TeamOne, TeamTwo, 5, 5);
    assert Order([(TeamOne, 5), (TeamTwo, 5)]) == Success(st);
    ExampleNames();
    ExampleScores();
  }

  /** A matchup where only one team has won a category has no second score. */
  lemma OneTeamExample()
    ensures MatchupRowOf([(TeamOne, 9)]) == Failure(IndexError)
  {
  }
}
