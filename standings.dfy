/** recalculate_all_standings, as a specification: every active team gets a
    row (get_or_create) whose counters are recounted from the results; then all
    rows, including those of inactive teams, are ranked and numbered 1..N. */
module Standings {
  import opened Wrappers
  import opened Models
  import opened Ranking
  import opened SeqFacts

  /** The ids of the active teams, in table order. */
  function ActiveIds(teams: seq<Team>): (ids: seq<TeamId>)
    ensures forall id :: id in ids <==> Active(teams, id)
  {
    if teams == [] then []
    else
      var last := teams[|teams| - 1];
      ActiveIds(teams[..|teams| - 1]) + (if last.active then [last.id] else [])
  }

  /** `id` is the id of an active team. */
  predicate Active(teams: seq<Team>, id: TeamId)
  {
    exists t :: t in teams && t.active && t.id == id
  }

  /** Team ids are primary keys: no two teams of the table share one. */
  predicate TeamKeys(teams: seq<Team>)
  {
    forall i, j :: 0 <= i < j < |teams| ==> teams[i].id != teams[j].id
  }

  /** Python's `<` on two team names: code point by code point, a proper
      prefix coming first. */
  function NameBefore(a: string, b: string): bool
  {
    if a == [] then b != []
    else if b == [] then false
    else if a[0] != b[0] then a[0] < b[0]
    else NameBefore(a[1..], b[1..])
  }

  /** `<` on names is a strict total order. */
  lemma {:induction false} NameBeforeTotal(a: string, b: string)
    ensures !(NameBefore(a, b) && NameBefore(b, a))
    ensures a != b ==> NameBefore(a, b) || NameBefore(b, a)
  {
    if a != [] && b != [] && a[0] == b[0] {
      NameBeforeTotal(a[1..], b[1..]);
      assert a != b ==> a[1..] != b[1..] by {
        if a[1..] == b[1..] {
          assert a == [a[0]] + a[1..] && b == [b[0]] + b[1..];
        }
      }
    }
  }

  lemma {:induction false} NameBeforeTransitive(a: string, b: string, c: string)
    requires NameBefore(a, b) && NameBefore(b, c)
    ensures NameBefore(a, c)
  {
    if a != [] && a[0] == b[0] && b[0] == c[0] {
      NameBeforeTransitive(a[1..], b[1..], c[1..]);
    }
  }

  /** No id of `order` is listed after the id of a team whose name comes later. */
  predicate NameSorted(teams: seq<Team>, order: seq<TeamId>)
  {
    forall i, j, a, b ::
      0 <= i < j < |order| && 0 <= a < |teams| && 0 <= b < |teams| && teams[a].id == order[i] && teams[b].id == order[j]
      ==> !NameBefore(teams[b].name, teams[a].name)
  }

  /** `order` lists the ids of the active teams the way
      `Team.objects.filter(is_active=True)` returns them: each once, sorted by
      name (the Meta ordering of Team). */
  predicate InNameOrder(teams: seq<Team>, order: seq<TeamId>)
  {
    multiset(order) == multiset(ActiveIds(teams)) && NameSorted(teams, order)
  }

  /** The active ids of one more team of the table. */
  lemma ActiveIdsStep(teams: seq<Team>, k: nat)
    requires k < |teams|
    ensures ActiveIds(teams[..k + 1]) == ActiveIds(teams[..k]) + (if teams[k].active then [teams[k].id] else [])
  {
    assert teams[..k + 1][..k] == teams[..k];
  }

  /** With distinct team ids, the active ids are distinct too. */
  lemma {:induction false} ActiveIdsDistinct(teams: seq<Team>)
    requires TeamKeys(teams)
    ensures NoDuplicates(ActiveIds(teams))
  {
    if teams != [] {
      var init, last := teams[..|teams| - 1], teams[|teams| - 1];
      ActiveIdsDistinct(init);
      assert !(last.active && last.id in ActiveIds(init));
    }
  }

  /** At most one row per team (Standing.team is a one-to-one link). */
  predicate TeamsDistinct(rows: seq<Standing>)
  {
    forall i, j :: 0 <= i < j < |rows| ==> rows[i].team != rows[j].team
  }

  /** The row of `team`, if it has one. */
  function FindRow(rows: seq<Standing>, team: TeamId): (r: Option<nat>)
    ensures r.Some? ==> r.value < |rows| && rows[r.value].team == team
    ensures r.None? ==> forall k :: 0 <= k < |rows| ==> rows[k].team != team
  {
    var keys := seq(|rows|, k requires 0 <= k < |rows| => rows[k].team);
    assert forall k :: 0 <= k < |rows| ==> rows[k].team == keys[k] && keys[k] in keys;
    IndexOf(keys, team)
  }

  /** One turn of the first loop: get_or_create the row of `id` (a new row has
      zero counters and position 0), then calculate() it. */
  function Refresh(rows: seq<Standing>, id: TeamId, results: seq<Result>): seq<Standing>
  {
    match FindRow(rows, id)
    case Some(k) => rows[k := rows[k].(stats := TeamStats(id, results))]
    case None => rows + [Standing(id, TeamStats(id, results), 0)]
  }

  /** get_or_create alone, as the team-creation receiver runs it: a zeroed row
      for `id` unless it already has one. */
  function WithRow(rows: seq<Standing>, id: TeamId): seq<Standing>
  {
    if FindRow(rows, id).Some? then rows else rows + [Standing(id, ZeroStats(), 0)]
  }

  /** A zeroed row for each id, in order, as generate_calendar recreates them. */
  function FreshRows(ids: seq<TeamId>): (rows: seq<Standing>)
    ensures |rows| == |ids|
    ensures forall k :: 0 <= k < |ids| ==> rows[k] == Standing(ids[k], ZeroStats(), 0)
  {
    seq(|ids|, k requires 0 <= k < |ids| => Standing(ids[k], ZeroStats(), 0))
  }

  /** Rows made from distinct ids are one per team. */
  lemma FreshRowsDistinct(ids: seq<TeamId>)
    requires NoDuplicates(ids)
    ensures TeamsDistinct(FreshRows(ids))
  {
  }

  /** The team gets exactly one row, and every other row stays. */
  lemma WithRowSpec(rows: seq<Standing>, id: TeamId)
    requires TeamsDistinct(rows)
    ensures var out := WithRow(rows, id);
      && TeamsDistinct(out)
      && (exists k :: 0 <= k < |out| && out[k].team == id)
      && (forall k :: 0 <= k < |rows| ==> out[k] == rows[k])
      && (FindRow(rows, id).None? ==> out == rows + [Standing(id, ZeroStats(), 0)])
  {
    if FindRow(rows, id).Some? {
      assert rows[FindRow(rows, id).value].team == id;
    } else {
      assert WithRow(rows, id)[|rows|].team == id;
    }
  }

  /** The first loop over the active teams. */
  function RefreshAll(rows: seq<Standing>, ids: seq<TeamId>, results: seq<Result>): seq<Standing>
  {
    if ids == [] then rows
    else Refresh(RefreshAll(rows, ids[..|ids| - 1], results), ids[|ids| - 1], results)
  }

  /** One more turn of the first loop over the team table. */
  lemma RefreshAllStep(rows: seq<Standing>, teams: seq<Team>, k: nat, results: seq<Result>)
    requires k < |teams|
    ensures RefreshAll(rows, ActiveIds(teams[..k + 1]), results)
         == if teams[k].active then Refresh(RefreshAll(rows, ActiveIds(teams[..k]), results), teams[k].id, results)
            else RefreshAll(rows, ActiveIds(teams[..k]), results)
  {
    ActiveIdsStep(teams, k);
    var ids := ActiveIds(teams[..k + 1]);
    if teams[k].active {
      assert ids == ActiveIds(teams[..k]) + [teams[k].id];
      assert ids[..|ids| - 1] == ActiveIds(teams[..k]);
      assert ids[|ids| - 1] == teams[k].id;
    } else {
      assert ids == ActiveIds(teams[..k]);
    }
  }

  /** The table after recalculate_all_standings. */
  function Recalculated(teams: seq<Team>, results: seq<Result>, rows: seq<Standing>): seq<Standing>
  {
    Positioned(RankOrder(RefreshAll(rows, ActiveIds(teams), results)))
  }

  // ---------------------------------------------------------------------------
  // The first loop
  // ---------------------------------------------------------------------------

  /** After one get_or_create + calculate: `id` has exactly its recounted row,
      every other row is untouched, and nothing else is added. */
  lemma RefreshSpec(rows: seq<Standing>, id: TeamId, results: seq<Result>)
    requires TeamsDistinct(rows)
    ensures var out := Refresh(rows, id, results);
      && TeamsDistinct(out)
      && (exists k :: 0 <= k < |out| && out[k].team == id && out[k].stats == TeamStats(id, results))
      && (forall x :: x in out && x.team != id ==> x in rows)
      && (forall x :: x in rows && x.team != id ==> x in out)
      && (forall x :: x in rows && x.team == id ==> exists y :: y in out && y == x.(stats := TeamStats(id, results)))
  {
    var out := Refresh(rows, id, results);
    match FindRow(rows, id)
    case Some(k) =>
      assert out[k].team == id;
      forall x | x in out && x.team != id
        ensures x in rows
      {
        var m :| 0 <= m < |out| && out[m] == x;
        assert m != k && rows[m] == x;
      }
      forall x | x in rows && x.team != id
        ensures x in out
      {
        var m :| 0 <= m < |rows| && rows[m] == x;
        assert m != k && out[m] == x;
      }
      forall x | x in rows && x.team == id
        ensures exists y :: y in out && y == x.(stats := TeamStats(id, results))
      {
        var m :| 0 <= m < |rows| && rows[m] == x;
        assert m == k && out[k] == x.(stats := TeamStats(id, results));
        assert out[k] in out;
      }
    case None =>
      assert out[|rows|].team == id;
  }

  /** What the first loop leaves: distinct rows, each listed team with its
      recounted row, every other row unchanged and kept. */
  lemma {:induction false} RefreshAllSpec(rows: seq<Standing>, ids: seq<TeamId>, results: seq<Result>)
    requires TeamsDistinct(rows)
    ensures var out := RefreshAll(rows, ids, results);
      && TeamsDistinct(out)
      && (forall id :: id in ids ==> exists x :: x in out && x.team == id && x.stats == TeamStats(id, results))
      && (forall x :: x in out && x.team !in ids ==> x in rows)
      && (forall x :: x in rows && x.team !in ids ==> x in out)
    decreases |ids|
  {
    if ids != [] {
      var init, id := ids[..|ids| - 1], ids[|ids| - 1];
      var mid := RefreshAll(rows, init, results);
      RefreshAllSpec(rows, init, results);
      RefreshSpec(mid, id, results);
      var out := Refresh(mid, id, results);
      forall i | i in ids
        ensures exists x :: x in out && x.team == i && x.stats == TeamStats(i, results)
      {
        if i != id {
          assert i in init;
          var x :| x in mid && x.team == i && x.stats == TeamStats(i, results);
          assert x in out;
        }
      }
    }
  }

  // ---------------------------------------------------------------------------
  // The whole recalculation
  // ---------------------------------------------------------------------------

  /** Reordering the rows keeps them one per team. */
  lemma PermutationDistinct(a: seq<Standing>, b: seq<Standing>)
    requires TeamsDistinct(a) && multiset(a) == multiset(b)
    ensures TeamsDistinct(b)
  {
    forall i, j | 0 <= i < j < |b|
      ensures b[i].team != b[j].team
    {
      if b[i].team == b[j].team {
        assert b[i] in multiset(a) && b[j] in multiset(a);
        var p :| 0 <= p < |a| && a[p] == b[i];
        var q :| 0 <= q < |a| && a[q] == b[j];
        if p == q {
          CountedOnce(a, p);
          CountedTwice(b, i, j);
          assert false;
        }
      }
    }
  }

  /** A row of the ranked, numbered table is an input row with its rank written in. */
  lemma RankedFrom(rows: seq<Standing>, k: nat)
    requires k < |rows|
    ensures exists x :: x in rows && Positioned(RankOrder(rows))[k] == x.(position := k + 1)
  {
    var o := RankOrder(rows);
    assert o[k] in multiset(o);
  }

  /** Every input row is in the ranked, numbered table, with its rank written in. */
  lemma RankedTo(rows: seq<Standing>, x: Standing)
    requires x in rows
    ensures exists k :: 0 <= k < |rows| && Positioned(RankOrder(rows))[k] == x.(position := k + 1)
  {
    var o := RankOrder(rows);
    assert x in multiset(rows);
    assert x in o;
    var k :| 0 <= k < |o| && o[k] == x;
    assert Positioned(o)[k] == x.(position := k + 1);
  }

  /** After a recalculation: one row per team, ranked and numbered 1..N. */
  lemma RecalculatedRanked(teams: seq<Team>, results: seq<Result>, rows: seq<Standing>)
    requires TeamsDistinct(rows)
    ensures var out := Recalculated(teams, results, rows);
      && TeamsDistinct(out)
      && Ranked(out)
      && (forall k :: 0 <= k < |out| ==> out[k].position == k + 1)
  {
    var mid := RefreshAll(rows, ActiveIds(teams), results);
    RefreshAllSpec(rows, ActiveIds(teams), results);
    PermutationDistinct(mid, RankOrder(mid));
    PositionedKeepsRanking(RankOrder(mid));
  }

  /** After a recalculation every active team has a row holding its recounted statistics. */
  lemma RecalculatedCoversActive(teams: seq<Team>, results: seq<Result>, rows: seq<Standing>, t: Team)
    requires TeamsDistinct(rows) && t in teams && t.active
    ensures var out := Recalculated(teams, results, rows);
      exists k :: 0 <= k < |out| && out[k].team == t.id && out[k].stats == TeamStats(t.id, results)
  {
    var mid := RefreshAll(rows, ActiveIds(teams), results);
    RefreshAllSpec(rows, ActiveIds(teams), results);
    assert t.id in ActiveIds(teams);
    var x :| x in mid && x.team == t.id && x.stats == TeamStats(t.id, results);
    RankedTo(mid, x);
    var out := Recalculated(teams, results, rows);
    assert out == Positioned(RankOrder(mid));
    var k :| 0 <= k < |mid| && out[k] == x.(position := k + 1);
  }

  /** The row of a team that is not active is ranked with its statistics untouched. */
  lemma RecalculatedKeepsInactive(teams: seq<Team>, results: seq<Result>, rows: seq<Standing>, x: Standing)
    requires TeamsDistinct(rows) && x in rows && !Active(teams, x.team)
    ensures var out := Recalculated(teams, results, rows);
      exists k :: 0 <= k < |out| && out[k] == x.(position := k + 1)
  {
    var mid := RefreshAll(rows, ActiveIds(teams), results);
    RefreshAllSpec(rows, ActiveIds(teams), results);
    assert x.team !in ActiveIds(teams);
    assert x in mid;
    RankedTo(mid, x);
    assert Recalculated(teams, results, rows) == Positioned(RankOrder(mid));
  }

  /** A recalculation adds rows for active teams only. */
  lemma RecalculatedAddsOnlyActive(teams: seq<Team>, results: seq<Result>, rows: seq<Standing>, k: nat)
    requires TeamsDistinct(rows)
    requires k < |Recalculated(teams, results, rows)|
    requires !Active(teams, Recalculated(teams, results, rows)[k].team)
    ensures exists x :: x in rows && Recalculated(teams, results, rows)[k] == x.(position := k + 1)
  {
    var mid := RefreshAll(rows, ActiveIds(teams), results);
    RefreshAllSpec(rows, ActiveIds(teams), results);
    RankedFrom(mid, k);
  }

  /** Recounting rows that already hold their recounted statistics changes nothing. */
  lemma {:induction false} RefreshAllKeeps(rows: seq<Standing>, ids: seq<TeamId>, results: seq<Result>)
    requires TeamsDistinct(rows)
    requires forall id :: id in ids ==> exists x :: x in rows && x.team == id && x.stats == TeamStats(id, results)
    ensures RefreshAll(rows, ids, results) == rows
    decreases |ids|
  {
    if ids != [] {
      var init, id := ids[..|ids| - 1], ids[|ids| - 1];
      forall i | i in init
        ensures exists x :: x in rows && x.team == i && x.stats == TeamStats(i, results)
      {
        assert i in ids;
      }
      RefreshAllKeeps(rows, init, results);
      var x :| x in rows && x.team == id && x.stats == TeamStats(id, results);
      var m :| 0 <= m < |rows| && rows[m] == x;
      match FindRow(rows, id)
      case Some(k) =>
        assert k == m;
        assert rows[k := rows[k].(stats := TeamStats(id, results))] == rows;
      case None =>
        assert false;
    }
  }

  /** calculate resets every counter before counting, so recalculating with the
      same teams and results changes nothing. */
  lemma RecalculatedIdempotent(teams: seq<Team>, results: seq<Result>, rows: seq<Standing>)
    requires TeamsDistinct(rows)
    ensures var once := Recalculated(teams, results, rows);
      Recalculated(teams, results, once) == once
  {
    var once := Recalculated(teams, results, rows);
    var ids := ActiveIds(teams);
    RecalculatedRanked(teams, results, rows);
    forall id | id in ids
      ensures exists x :: x in once && x.team == id && x.stats == TeamStats(id, results)
    {
      var t :| t in teams && t.active && t.id == id;
      RecalculatedCoversActive(teams, results, rows, t);
      var k :| 0 <= k < |once| && once[k].team == t.id && once[k].stats == TeamStats(t.id, results);
      assert once[k] in once;
    }
    RefreshAllKeeps(once, ids, results);
    RankOrderOfRanked(once);
    PositionedIdempotent(RankOrder(RefreshAll(rows, ids, results)));
  }

  // ---------------------------------------------------------------------------
  // The loops as the source runs them
  // ---------------------------------------------------------------------------

  /** The standing rows generate_calendar recreates: one zeroed row per id of
      `ids` (the active teams, in the order the query returns them). */
  method ZeroedRows(ids: seq<TeamId>) returns (rows: seq<Standing>)
    ensures rows == FreshRows(ids)
  {
    rows := [];
    var k := 0;
    while k < |ids|
      invariant k <= |ids|
      invariant rows == FreshRows(ids[..k])
    {
      rows := rows + [Standing(ids[k], ZeroStats(), 0)];
      k := k + 1;
    }
    assert ids[..k] == ids;
  }

  // ---------------------------------------------------------------------------

  /** Standing.calculate: reset the six counters, count the validated results
      played at home, then those played away, and derive goal difference and
      points. */
  method Calculate(row: Standing, results: seq<Result>) returns (updated: Standing)
    ensures updated == row.(stats := TeamStats(row.team, results))
  {
    var c := CountHomeGames(row.team, results);
    c := CountAwayGames(row.team, results, c);
    updated := row.(stats := Stats(c.played, c.won, c.drawn, c.lost, c.goalsFor, c.goalsAgainst,
                                   c.goalsFor - c.goalsAgainst, c.won * 3 + c.drawn));
  }

  /** Calculate's first loop: from zeroed counters, count each result in turn
      from the home side. */
  method CountHomeGames(team: TeamId, results: seq<Result>) returns (c: Tally)
    ensures c == RoleTally(team, results, AsHome)
  {
    c := NoGames();
    var i := 0;
    while i < |results|
      invariant i <= |results|
      invariant c == RoleTally(team, results[..i], AsHome)
    {
      RoleTallyNext(team, results, i, AsHome);
      c := CountHomeGame(c, results[i], team);
      i := i + 1;
    }
    assert results[..i] == results;
  }

  /** Calculate's second loop: on top of the home counts, count each result in
      turn from the away side. */
  method CountAwayGames(team: TeamId, results: seq<Result>, home: Tally) returns (c: Tally)
    ensures c == Plus(home, RoleTally(team, results, AsAway))
  {
    c := home;
    var j := 0;
    while j < |results|
      invariant j <= |results|
      invariant c == Plus(home, RoleTally(team, results[..j], AsAway))
    {
      StepPlus(home, RoleTally(team, results[..j], AsAway), results[j], team, AsAway);
      RoleTallyNext(team, results, j, AsAway);
      c := CountAwayGame(c, results[j], team);
      j := j + 1;
    }
    assert results[..j] == results;
  }

  /** The body of calculate's first loop: a validated result the team played
      at home adds a game, its goals and one of win, draw or defeat. */
  method CountHomeGame(c: Tally, r: Result, team: TeamId) returns (next: Tally)
    ensures next == Step(c, r, team, AsHome)
  {
    next := c;
    if r.validated && r.home == team {
      CountByOutcome(c, r.homeScore, r.awayScore);
      next := next.(played := next.played + 1, goalsFor := next.goalsFor + r.homeScore,
                    goalsAgainst := next.goalsAgainst + r.awayScore);
      if r.homeScore > r.awayScore {
        next := next.(won := next.won + 1);
      } else if r.homeScore == r.awayScore {
        next := next.(drawn := next.drawn + 1);
      } else {
        next := next.(lost := next.lost + 1);
      }
    }
  }

  /** The body of calculate's second loop: the same for a result played away,
      read from the away side. */
  method CountAwayGame(c: Tally, r: Result, team: TeamId) returns (next: Tally)
    ensures next == Step(c, r, team, AsAway)
  {
    next := c;
    if r.validated && r.away == team {
      CountByOutcome(c, r.awayScore, r.homeScore);
      next := next.(played := next.played + 1, goalsFor := next.goalsFor + r.awayScore,
                    goalsAgainst := next.goalsAgainst + r.homeScore);
      if r.awayScore > r.homeScore {
        next := next.(won := next.won + 1);
      } else if r.awayScore == r.homeScore {
        next := next.(drawn := next.drawn + 1);
      } else {
        next := next.(lost := next.lost + 1);
      }
    }
  }

  /** One counted game, spelled out the way calculate updates the counters:
      the shared counters first, then the one outcome counter. */
  lemma CountByOutcome(c: Tally, mine: nat, theirs: nat)
    ensures var shared := c.(played := c.played + 1, goalsFor := c.goalsFor + mine,
                             goalsAgainst := c.goalsAgainst + theirs);
      Count(c, mine, theirs) ==
        if mine > theirs then shared.(won := c.won + 1)
        else if mine == theirs then shared.(drawn := c.drawn + 1)
        else shared.(lost := c.lost + 1)
  {
  }

  /** The position loop: walk the ranked rows numbering them from 1, and write
      back only the rows whose position changes; `saved` lists those rows. */
  method AssignPositions(ordered: seq<Standing>) returns (rows: seq<Standing>, saved: seq<nat>)
    ensures rows == Positioned(ordered)
    ensures forall k :: k in saved <==> 0 <= k < |ordered| && ordered[k].position != k + 1
    ensures forall k :: 0 <= k < |ordered| && k !in saved ==> rows[k] == ordered[k]
  {
    rows, saved := ordered, [];
    var index := 0;
    while index < |ordered|
      invariant index <= |ordered| && |rows| == |ordered|
      invariant forall k :: 0 <= k < index ==> rows[k] == ordered[k].(position := k + 1)
      invariant forall k :: index <= k < |ordered| ==> rows[k] == ordered[k]
      invariant forall k :: k in saved <==> 0 <= k < index && ordered[k].position != k + 1
    {
      if rows[index].position != index + 1 {
        rows := rows[index := rows[index].(position := index + 1)];
        saved := saved + [index];
      }
      index := index + 1;
    }
  }
}
