/** The league's tables and the operations that change them: the signal
    receivers (result saved, result deleted, team created), the calendar and
    playoff generators, the recording of a playoff result with the bracket
    update that follows it, and the position refresh of the standings page. */
module Store {
  import opened Wrappers
  import opened Models
  import opened Schedule
  import opened Ranking
  import opened Standings
  import opened Playoffs
  import opened Forms
  import opened SeqFacts

  /** At most one result per match (Result.match is a one-to-one link). */
  predicate ResultKeys(rs: seq<Result>)
  {
    forall i, j :: 0 <= i < j < |rs| ==> rs[i].matchId != rs[j].matchId
  }

  /** The match has a result in `rs`. */
  predicate HasResult(rs: seq<Result>, matchId: nat)
  {
    exists k :: 0 <= k < |rs| && rs[k].matchId == matchId
  }

  /** The result table after saving `r`: the row of its match is replaced, or
      a new row is added. */
  function Upsert(rs: seq<Result>, r: Result): (out: seq<Result>)
    ensures r in out
    ensures forall x :: x in out && x.matchId != r.matchId ==> x in rs
    ensures forall x :: x in rs && x.matchId != r.matchId ==> x in out
  {
    if rs == [] then [r]
    else if rs[0].matchId == r.matchId then [r] + rs[1..]
    else [rs[0]] + Upsert(rs[1..], r)
  }

  /** The table grows by one row exactly when the match had no result. */
  lemma {:induction false} UpsertLength(rs: seq<Result>, r: Result)
    ensures |Upsert(rs, r)| == if HasResult(rs, r.matchId) then |rs| else |rs| + 1
  {
    if rs != [] && rs[0].matchId != r.matchId {
      UpsertLength(rs[1..], r);
      if HasResult(rs, r.matchId) {
        var k :| 0 <= k < |rs| && rs[k].matchId == r.matchId;
        assert rs[1..][k - 1] == rs[k];
      }
      if HasResult(rs[1..], r.matchId) {
        var k :| 0 <= k < |rs[1..]| && rs[1..][k].matchId == r.matchId;
        assert rs[k + 1] == rs[1..][k];
      }
    } else if rs != [] {
      assert HasResult(rs, r.matchId);
    }
  }

  /** With at most one result per match before the save, there is at most one
      after it, and the saved match's only result is `r`: the previous one is
      gone. */
  lemma {:induction false} UpsertReplaces(rs: seq<Result>, r: Result)
    requires ResultKeys(rs)
    ensures ResultKeys(Upsert(rs, r))
    ensures forall x :: x in Upsert(rs, r) && x.matchId == r.matchId ==> x == r
  {
    if rs == [] {
    } else if rs[0].matchId == r.matchId {
      assert forall x :: x in rs[1..] ==> x.matchId != r.matchId by {
        forall x | x in rs[1..]
          ensures x.matchId != r.matchId
        {
          var k :| 0 <= k < |rs[1..]| && rs[1..][k] == x;
          assert rs[k + 1] == x;
        }
      }
      assert forall i :: 1 <= i < |rs| ==> rs[1..][i - 1] == rs[i];
    } else {
      var tail := rs[1..];
      assert ResultKeys(tail) by {
        forall i, j | 0 <= i < j < |tail|
          ensures tail[i].matchId != tail[j].matchId
        {
          assert tail[i] == rs[i + 1] && tail[j] == rs[j + 1];
        }
      }
      UpsertReplaces(tail, r);
      var rest := Upsert(tail, r);
      forall j | 0 <= j < |rest|
        ensures rs[0].matchId != rest[j].matchId
      {
        if rest[j].matchId != r.matchId {
          assert rest[j] in tail;
          var k :| 0 <= k < |tail| && tail[k] == rest[j];
          assert rs[k + 1] == rest[j];
        }
      }
      assert Upsert(rs, r) == [rs[0]] + rest;
    }
  }

  /** The index of the team with id `id`. */
  function FindTeam(teams: seq<Team>, id: TeamId): (r: Option<nat>)
    ensures r.Some? ==> r.value < |teams| && teams[r.value].id == id
    ensures r.None? ==> forall k :: 0 <= k < |teams| ==> teams[k].id != id
  {
    var keys := seq(|teams|, k requires 0 <= k < |teams| => teams[k].id);
    assert forall k :: 0 <= k < |teams| ==> teams[k].id == keys[k] && keys[k] in keys;
    IndexOf(keys, id)
  }

  /** A playoff match as the result form saves it. */
  function Recorded(pm: PlayoffMatch, homeScore: nat, awayScore: nat, extraTime: bool,
                    penalties: bool, penaltyWinner: Option<TeamId>): PlayoffMatch
  {
    pm.(homeScore := homeScore, awayScore := awayScore, extraTime := extraTime,
        penalties := penalties, penaltyWinner := penaltyWinner, played := true)
  }

  /** A permutation of distinct ids is distinct, and has the same members. */
  lemma ShuffledDistinct(ids: seq<TeamId>, order: seq<TeamId>)
    requires NoDuplicates(ids) && multiset(order) == multiset(ids)
    ensures NoDuplicates(order) && |order| == |ids|
  {
    assert |multiset(order)| == |multiset(ids)|;
    forall p, q | 0 <= p < q < |order|
      ensures order[p] != order[q]
    {
      if order[p] == order[q] {
        assert order[p] in multiset(ids);
        var i :| 0 <= i < |ids| && ids[i] == order[p];
        CountedOnce(ids, i);
        CountedTwice(order, p, q);
        assert false;
      }
    }
  }

  /** Three active teams saved as Zebra (1), Alpha (2) and Mango (3). */
  function ExampleTeams(): seq<Team>
  {
    [Team(1, "Zebra", true), Team(2, "Alpha", true), Team(3, "Mango", true)]
  }

  lemma ExampleActiveIds()
    ensures ActiveIds(ExampleTeams()) == [1, 2, 3]
  {
    var teams := ExampleTeams();
    assert teams[..1][..0] == [] && teams[..2][..1] == teams[..1] && teams[..2] == teams[..|teams| - 1];
    assert ActiveIds(teams[..1]) == [1];
    assert ActiveIds(teams[..2]) == [1, 2];
  }

  /** Two names whose first letters differ are ordered by those letters. */
  lemma FirstLetterDecides(a: string, b: string)
    requires a != [] && b != [] && a[0] < b[0]
    ensures NameBefore(a, b) && !NameBefore(b, a)
  {
  }

  /** The query returns the example teams as Alpha, Mango, Zebra ... */
  lemma NameOrderExample()
    ensures InNameOrder(ExampleTeams(), [2, 3, 1])
  {
    ExampleActiveIds();
    ExamplePermuted();
    ExampleSortedByName();
  }

  lemma ExamplePermuted()
    ensures multiset([2, 3, 1]) == multiset(ActiveIds(ExampleTeams()))
  {
    ExampleActiveIds();
    assert [2, 3, 1] == [2] + [3] + [1] && [1, 2, 3] == [1] + [2] + [3];
  }

  lemma ExampleSortedByName()
    ensures NameSorted(ExampleTeams(), [2, 3, 1])
  {
    var teams, order := ExampleTeams(), [2, 3, 1];
    forall i, j, a, b | 0 <= i < j < |order| && 0 <= a < |teams| && 0 <= b < |teams|
        && teams[a].id == order[i] && teams[b].id == order[j]
      ensures !NameBefore(teams[b].name, teams[a].name)
    {
      assert a == order[i] - 1 && b == order[j] - 1;
      FirstLetterDecides(teams[a].name, teams[b].name);
    }
  }

  /** ... and not in the order they were saved. */
  lemma SavedOrderIsNotNameOrder()
    ensures !InNameOrder(ExampleTeams(), [1, 2, 3])
  {
    var teams := ExampleTeams();
    assert teams[0].id == 1 && teams[1].id == 2;
    assert NameBefore(teams[1].name, teams[0].name);
  }

  /** With Alpha, Mango and Zebra in that order, the first match of the
      calendar is Mango against Zebra on matchday 1: Alpha has the bye. */
  lemma NameOrderFirstMatch()
    ensures Calendar([2, 3, 1])[0] == Match(3, 1, 1, Aller, false)
  {
    var slots := Pad([2, 3, 1]);
    assert slots == [Some(2), Some(3), Some(1), None];
    var sched := Rotated(slots, 0);
    assert sched == slots;
    assert DayFixtures(sched, 1, 1) == Pairing(sched, 1, 0, 3) == [];
    assert Day(slots, 1) == [Match(3, 1, 1, Aller, false)];
    assert AllerFixtures(slots, 1) == Day(slots, 1);
    AllerPrefix(slots, 1, 3);
  }

  class LeagueStore {
    var teams: seq<Team>
    var matches: seq<Match>
    var results: seq<Result>
    var standings: seq<Standing>
    var playoffs: seq<PlayoffMatch>

    /** Team ids are keys, a team has at most one standing row, and a match
        at most one result. */
    ghost predicate Valid()
      reads this
    {
      TeamKeys(teams) && TeamsDistinct(standings) && ResultKeys(results)
    }

    /** An empty league. */
    constructor ()
      ensures Valid()
      ensures teams == [] && matches == [] && results == [] && standings == [] && playoffs == []
    {
      teams, matches, results, standings, playoffs := [], [], [], [], [];
    }

    /** recalculate_all_standings: get_or_create and recount the row of every
        active team, then number all rows in ranking order, writing back only
        the positions that change. The rows are kept in ranking order. */
    method RecalculateAllStandings()
      requires Valid()
      modifies this
      ensures Valid()
      ensures standings == Recalculated(teams, results, old(standings))
      ensures teams == old(teams) && matches == old(matches) && results == old(results) && playoffs == old(playoffs)
    {
      ghost var initial := standings;
      var rows := standings;
      var k := 0;
      while k < |teams|
        invariant k <= |teams|
        invariant rows == RefreshAll(initial, ActiveIds(teams[..k]), results)
        invariant unchanged(this)
      {
        var team := teams[k];
        RefreshAllStep(initial, teams, k, results);
        if team.active {
          var found := FindRow(rows, team.id);
          if found.Some? {
            var row := Calculate(rows[found.value], results);
            rows := rows[found.value := row];
          } else {
            var row := Calculate(Standing(team.id, ZeroStats(), 0), results);
            rows := rows + [row];
          }
        }
        k := k + 1;
      }
      assert teams[..k] == teams;
      var ordered := RankOrder(rows);
      var positioned, saved := AssignPositions(ordered);
      standings := positioned;
      RecalculatedRanked(teams, results, initial);
    }

    /** A result row is saved (created or updated); the post_save receiver
        recalculates the standings only when the saved result is validated. */
    method SaveResult(r: Result)
      requires Valid()
      modifies this
      ensures Valid()
      ensures results == Upsert(old(results), r)
      ensures forall x :: x in results && x.matchId == r.matchId ==> x == r
      ensures standings == if r.validated then Recalculated(teams, results, old(standings)) else old(standings)
      ensures teams == old(teams) && matches == old(matches) && playoffs == old(playoffs)
    {
      UpsertReplaces(results, r);
      results := Upsert(results, r);
      if r.validated {
        RecalculateAllStandings();
      }
    }

    /** A result row is deleted; the post_delete receiver always recalculates. */
    method DeleteResult(k: nat)
      requires Valid() && k < |results|
      modifies this
      ensures Valid()
      ensures results == old(results[..k] + results[k + 1..])
      ensures standings == Recalculated(teams, results, old(standings))
      ensures teams == old(teams) && matches == old(matches) && playoffs == old(playoffs)
    {
      results := results[..k] + results[k + 1..];
      RecalculateAllStandings();
    }

    /** A team is saved; when it is new, the post_save receiver gives it a
        zeroed standing row (get_or_create); an update touches no standing. */
    method SaveTeam(t: Team) returns (created: bool)
      requires Valid()
      modifies this
      ensures Valid()
      ensures created <==> FindTeam(old(teams), t.id).None?
      ensures created ==> teams == old(teams) + [t] && standings == WithRow(old(standings), t.id)
      ensures !created ==> teams == old(teams)[FindTeam(old(teams), t.id).value := t] && standings == old(standings)
      ensures matches == old(matches) && results == old(results) && playoffs == old(playoffs)
    {
      var found := FindTeam(teams, t.id);
      if found.Some? {
        teams := teams[found.value := t];
        created := false;
      } else {
        teams := teams + [t];
        created := true;
        WithRowSpec(standings, t.id);
        standings := WithRow(standings, t.id);
      }
    }

    /** generate_calendar: delete every match (and with them every result, each
        deletion recalculating the standings), then, with at least two active
        teams, create the first phase by the circle method over the active
        teams (`byName`, the order the query returns them in, or `permuted`,
        the shuffle of them), its mirrored return phase, and a fresh zeroed
        standing row per active team, in name order. With fewer than two
        active teams it stops after the deletions. */
    method GenerateCalendar(shuffle: bool, byName: seq<TeamId>, permuted: seq<TeamId>) returns (ok: bool)
      requires Valid()
      requires InNameOrder(teams, byName)
      requires shuffle ==> multiset(permuted) == multiset(ActiveIds(teams))
      modifies this
      ensures Valid()
      ensures ok <==> |ActiveIds(teams)| >= 2
      ensures results == []
      ensures ok ==> |ActiveIds(teams)| == |if shuffle then permuted else byName|
      ensures ok ==> matches == Calendar(if shuffle then permuted else byName)
      ensures ok ==> standings == FreshRows(byName)
      ensures !ok ==> matches == []
      ensures !ok ==> standings == if old(results) != [] then Recalculated(teams, [], old(standings)) else old(standings)
      ensures teams == old(teams) && playoffs == old(playoffs)
    {
      ClearCalendar();
      if |ActiveIds(teams)| < 2 {
        return false;
      }
      Populate(shuffle, byName, permuted);
      ok := true;
    }

    /** What generate_calendar does once the tables are cleared and there are
        two active teams: the matches and the fresh standing rows. */
    method Populate(shuffle: bool, byName: seq<TeamId>, permuted: seq<TeamId>)
      requires Valid() && results == [] && |ActiveIds(teams)| >= 2
      requires multiset(byName) == multiset(ActiveIds(teams))
      requires shuffle ==> multiset(permuted) == multiset(ActiveIds(teams))
      modifies this
      ensures teams == old(teams) && playoffs == old(playoffs)
      ensures Valid() && results == []
      ensures |ActiveIds(teams)| == |if shuffle then permuted else byName|
      ensures matches == Calendar(if shuffle then permuted else byName)
      ensures standings == FreshRows(byName)
    {
      var ids := ActiveIds(teams);
      ActiveIdsDistinct(teams);
      matches, standings := Fixtures(ids, shuffle, byName, permuted);
    }

    /** The calendar over the unshuffled or the shuffled order of the active
        teams `ids`, and their fresh standing rows in name order. */
    static method Fixtures(ids: seq<TeamId>, shuffle: bool, byName: seq<TeamId>, permuted: seq<TeamId>)
      returns (ms: seq<Match>, rows: seq<Standing>)
      requires |ids| >= 2 && NoDuplicates(ids) && multiset(byName) == multiset(ids)
      requires shuffle ==> multiset(permuted) == multiset(ids)
      ensures |ids| == |if shuffle then permuted else byName|
      ensures ms == Calendar(if shuffle then permuted else byName)
      ensures rows == FreshRows(byName) && TeamsDistinct(rows)
    {
      ShuffledDistinct(ids, byName);
      if shuffle {
        ShuffledDistinct(ids, permuted);
      }
      var order := if shuffle then permuted else byName;
      ms := CreateCalendar(order);
      rows := ZeroedRows(byName);
      FreshRowsDistinct(byName);
    }

    /** The deletions generate_calendar starts with: every match, and with
        them every result; the delete receiver recalculates the standings when
        there was a result to delete. */
    method ClearCalendar()
      requires Valid()
      modifies this
      ensures Valid()
      ensures matches == [] && results == []
      ensures standings == if old(results) != [] then Recalculated(teams, [], old(standings)) else old(standings)
      ensures teams == old(teams) && playoffs == old(playoffs)
    {
      var hadResults := results != [];
      matches, results := [], [];
      if hadResults {
        RecalculateAllStandings();
      }
    }

    /** generate_playoffs: delete the old bracket; with at least four standing
        rows, seed the top four of the ranking into the six bracket rows. */
    method GeneratePlayoffs() returns (ok: bool)
      requires Valid()
      modifies this
      ensures Valid()
      ensures ok <==> |standings| >= 4
      ensures ok ==> var seeds := TopFour(standings);
        playoffs == Seeded(seeds[0], seeds[1], seeds[2], seeds[3])
      ensures !ok ==> playoffs == []
      ensures teams == old(teams) && matches == old(matches) && results == old(results)
      ensures standings == old(standings)
    {
      playoffs := [];
      if |standings| < 4 {
        return false;
      }
      var seeds := TopFour(standings);
      playoffs := Seeded(seeds[0], seeds[1], seeds[2], seeds[3]);
      ok := true;
    }

    /** _update_playoff_bracket: resolve each semifinal whose two legs are
        played, collect winners and losers, and write them into the final and
        the third-place match once both semifinals are decided. */
    method UpdatePlayoffBracket()
      requires Valid()
      modifies this
      ensures Valid()
      ensures playoffs == Advanced(old(playoffs))
      ensures teams == old(teams) && matches == old(matches) && results == old(results)
      ensures standings == old(standings)
    {
      var semi1Leg1, semi1Leg2 := FirstOf(playoffs, Semi1Leg1, true), FirstOf(playoffs, Semi1Leg2, true);
      var semi2Leg1, semi2Leg2 := FirstOf(playoffs, Semi2Leg1, true), FirstOf(playoffs, Semi2Leg2, true);
      var finalists: seq<Option<TeamId>> := [];
      var losers: seq<Option<TeamId>> := [];
      ghost var tie1, tie2 := Resolve(playoffs, Semi1Leg1, Semi1Leg2), Resolve(playoffs, Semi2Leg1, Semi2Leg2);
      if semi1Leg1.Some? && semi1Leg2.Some? {
        var tie := DetermineSemiWinner(playoffs[semi1Leg1.value], playoffs[semi1Leg2.value]);
        assert tie == tie1;
        if tie.winner.Some? {
          finalists := finalists + [tie.winner];
          losers := losers + [tie.loser];
        }
      }
      assert finalists == (if tie1.winner.Some? then [tie1.winner] else []);
      assert losers == (if tie1.winner.Some? then [tie1.loser] else []);
      if semi2Leg1.Some? && semi2Leg2.Some? {
        var tie := DetermineSemiWinner(playoffs[semi2Leg1.value], playoffs[semi2Leg2.value]);
        assert tie == tie2;
        if tie.winner.Some? {
          finalists := finalists + [tie.winner];
          losers := losers + [tie.loser];
        }
      }
      assert finalists == (if tie1.winner.Some? then [tie1.winner] else []) + (if tie2.winner.Some? then [tie2.winner] else []);
      assert losers == (if tie1.winner.Some? then [tie1.loser] else []) + (if tie2.winner.Some? then [tie2.loser] else []);
      assert (finalists, losers) == Qualified(playoffs);
      if |finalists| == 2 {
        var final := FirstOf(playoffs, Final, false);
        if final.Some? {
          playoffs := playoffs[final.value := playoffs[final.value].(home := finalists[0], away := finalists[1])];
        }
      }
      if |losers| == 2 {
        var third := FirstOf(playoffs, ThirdPlace, false);
        if third.Some? {
          playoffs := playoffs[third.value := playoffs[third.value].(home := losers[0], away := losers[1])];
        }
      }
    }

    /** playoff_result: the form for the stored match `k` is checked (the
        penalty winner must be one of the match's teams, or none); when it is
        valid the match is saved as played and the bracket is updated. */
    method RecordPlayoffResult(k: nat, homeScore: nat, awayScore: nat, extraTime: bool,
                               penalties: bool, penaltyWinner: Option<TeamId>) returns (ok: bool)
      requires Valid() && k < |playoffs|
      modifies this
      ensures Valid()
      ensures ok <==> penaltyWinner.None? || penaltyWinner.value in TeamsAmong(teams, old(playoffs[k].home), old(playoffs[k].away))
      ensures ok ==> playoffs == Advanced(old(playoffs)[k := Recorded(old(playoffs[k]), homeScore, awayScore, extraTime, penalties, penaltyWinner)])
      ensures !ok ==> playoffs == old(playoffs)
      ensures teams == old(teams) && matches == old(matches) && results == old(results)
      ensures standings == old(standings)
    {
      var form := new PlayoffResultForm(teams, playoffs[k], true);
      if !form.Accepts(penaltyWinner) {
        return false;
      }
      playoffs := playoffs[k := Recorded(playoffs[k], homeScore, awayScore, extraTime, penalties, penaltyWinner)];
      UpdatePlayoffBracket();
      ok := true;
    }

    /** The standings page: number the rows in ranking order, writing back only
        the positions that change. */
    method RefreshPositions()
      requires Valid()
      modifies this
      ensures Valid()
      ensures standings == Positioned(RankOrder(old(standings)))
      ensures teams == old(teams) && matches == old(matches) && results == old(results) && playoffs == old(playoffs)
    {
      var ordered := RankOrder(standings);
      PermutationDistinct(standings, ordered);
      var rows, saved := AssignPositions(ordered);
      standings := rows;
    }
  }
}
