/** The league's records (teams, matches, results, standings, playoff matches),
    the two per-match winner rules, and the specification of Standing.calculate:
    how a team's row is recounted from the validated results. */
module Models {
  import opened Wrappers

  /** Primary key of a Team row. */
  type TeamId = nat

  datatype Team = Team(id: TeamId, name: string, active: bool)

  /** First ("aller") or return ("retour") half of the double round robin. */
  datatype Phase = Aller | Retour

  /** A fixture of the calendar; scores live in the Result attached to it. */
  datatype Match = Match(home: TeamId, away: TeamId, matchday: nat, phase: Phase, played: bool)

  /** The score of one match. `home` and `away` are the teams of the match the
      result belongs to (the source reaches them through result.match). Scores
      are PositiveIntegerFields, hence nat. */
  datatype Result = Result(matchId: nat, home: TeamId, away: TeamId,
                           homeScore: nat, awayScore: nat, validated: bool)

  /** The eight counters of a Standing row. */
  datatype Stats = Stats(played: nat, won: nat, drawn: nat, lost: nat,
                         goalsFor: nat, goalsAgainst: nat, goalDifference: int, points: nat)

  /** One row of the table; position 0 is the field's default ("not ranked yet"). */
  datatype Standing = Standing(team: TeamId, stats: Stats, position: nat)

  datatype Round = Semi1Leg1 | Semi1Leg2 | Semi2Leg1 | Semi2Leg2 | ThirdPlace | Final

  /** A knockout match; the teams are unset (None) until qualification is known. */
  datatype PlayoffMatch = PlayoffMatch(round: Round, home: Option<TeamId>, away: Option<TeamId>,
                                       homeScore: nat, awayScore: nat, played: bool,
                                       extraTime: bool, penalties: bool, penaltyWinner: Option<TeamId>)

  function ZeroStats(): Stats { Stats(0, 0, 0, 0, 0, 0, 0, 0) }

  /** A playoff row as PlayoffMatch.objects.create leaves it: scores 0, every flag false. */
  function NewPlayoffMatch(round: Round, home: Option<TeamId>, away: Option<TeamId>): PlayoffMatch
  {
    PlayoffMatch(round, home, away, 0, 0, false, false, false, None)
  }

  // ---------------------------------------------------------------------------
  // Constraints of the Match table
  // ---------------------------------------------------------------------------

  /** No team id is listed twice (primary keys). */
  predicate NoDuplicates(ids: seq<TeamId>)
  {
    forall p, q :: 0 <= p < q < |ids| ==> ids[p] != ids[q]
  }

  /** A `.get(id=...)`-style lookup: the first place where `id` occurs, or None
      when it does not occur at all. */
  function IndexOf(ids: seq<TeamId>, id: TeamId): (r: Option<nat>)
    ensures r.Some? ==> r.value < |ids| && ids[r.value] == id && id !in ids[..r.value]
    ensures r.None? <==> id !in ids
  {
    if ids == [] then None
    else if ids[0] == id then Some(0)
    else
      match IndexOf(ids[1..], id)
      case None => None
      case Some(k) => assert ids[..k + 1] == [ids[0]] + ids[1..][..k]; Some(k + 1)
  }

  /** unique_together (home_team, away_team, phase) and matchday >= 1. */
  ghost predicate MatchTableValid(ms: seq<Match>)
  {
    && (forall k :: 0 <= k < |ms| ==> ms[k].matchday >= 1)
    && (forall k1, k2 :: 0 <= k1 < k2 < |ms| ==>
          !(ms[k1].home == ms[k2].home && ms[k1].away == ms[k2].away && ms[k1].phase == ms[k2].phase))
  }

  // ---------------------------------------------------------------------------
  // Winner rules
  // ---------------------------------------------------------------------------

  /** Result.winner: the side with more goals, None on a draw. */
  function ResultWinner(r: Result): Option<TeamId>
  {
    if r.homeScore > r.awayScore then Some(r.home)
    else if r.awayScore > r.homeScore then Some(r.away)
    else None
  }

  /** The penalty winner a playoff row may hold: none, or one of its two teams
      (the restriction PlayoffResultForm puts on the field). */
  predicate PenaltyWinnerAllowed(pm: PlayoffMatch)
  {
    pm.penaltyWinner.None? || pm.penaltyWinner == pm.home || pm.penaltyWinner == pm.away
  }

  /** PlayoffMatch.winner: nothing before the match is played; then a recorded
      shoot-out winner; then the higher score; a level score gives None. */
  function PlayoffWinner(pm: PlayoffMatch): Option<TeamId>
  {
    if !pm.played then None
    else if pm.penalties && pm.penaltyWinner.Some? then pm.penaltyWinner
    else if pm.homeScore > pm.awayScore then pm.home
    else if pm.awayScore > pm.homeScore then pm.away
    else None
  }

  /** With an allowed penalty winner, a playoff match is only ever won by one of its teams. */
  lemma PlayoffWinnerIsParticipant(pm: PlayoffMatch)
    requires PenaltyWinnerAllowed(pm)
    ensures PlayoffWinner(pm).Some? ==> PlayoffWinner(pm) == pm.home || PlayoffWinner(pm) == pm.away
  {
  }

  /** Without a recorded shoot-out winner, a played playoff match is decided
      exactly like a league result on the same teams and scores. */
  lemma PlayoffWinnerWithoutShootout(pm: PlayoffMatch, h: TeamId, a: TeamId)
    requires pm.played && pm.home == Some(h) && pm.away == Some(a)
    requires !(pm.penalties && pm.penaltyWinner.Some?)
    ensures PlayoffWinner(pm) == ResultWinner(Result(0, h, a, pm.homeScore, pm.awayScore, true))
  {
  }

  // ---------------------------------------------------------------------------
  // Standing.calculate, as a specification
  // ---------------------------------------------------------------------------

  /** The six counters Standing.calculate accumulates before deriving the other two. */
  datatype Tally = Tally(played: nat, won: nat, drawn: nat, lost: nat, goalsFor: nat, goalsAgainst: nat)

  function NoGames(): Tally { Tally(0, 0, 0, 0, 0, 0) }

  /** The role a team had in a result: calculate makes one pass per role. */
  datatype Role = AsHome | AsAway

  /** Whether a result is picked up by the pass for `role` of `team`'s recount. */
  predicate CountsFor(r: Result, team: TeamId, role: Role)
  {
    r.validated && (if role == AsHome then r.home == team else r.away == team)
  }

  function Scored(r: Result, role: Role): nat
  {
    if role == AsHome then r.homeScore else r.awayScore
  }

  function Conceded(r: Result, role: Role): nat
  {
    if role == AsHome then r.awayScore else r.homeScore
  }

  /** The counters after one more game in which the team scored `mine` and conceded `theirs`. */
  function Count(c: Tally, mine: nat, theirs: nat): Tally
  {
    Tally(c.played + 1,
          c.won + (if mine > theirs then 1 else 0),
          c.drawn + (if mine == theirs then 1 else 0),
          c.lost + (if mine < theirs then 1 else 0),
          c.goalsFor + mine,
          c.goalsAgainst + theirs)
  }

  /** What one pass of calculate does with one more result. */
  function Step(c: Tally, r: Result, team: TeamId, role: Role): Tally
  {
    if CountsFor(r, team, role) then Count(c, Scored(r, role), Conceded(r, role)) else c
  }

  /** What one pass of calculate accumulates over `rs`, in order. */
  function RoleTally(team: TeamId, rs: seq<Result>, role: Role): (c: Tally)
    ensures c.played == c.won + c.drawn + c.lost
  {
    if rs == [] then NoGames()
    else Step(RoleTally(team, rs[..|rs| - 1], role), rs[|rs| - 1], team, role)
  }

  function Plus(a: Tally, b: Tally): Tally
  {
    Tally(a.played + b.played, a.won + b.won, a.drawn + b.drawn, a.lost + b.lost,
          a.goalsFor + b.goalsFor, a.goalsAgainst + b.goalsAgainst)
  }

  /** Both passes of calculate: home results, then away results. */
  function TeamTally(team: TeamId, rs: seq<Result>): Tally
  {
    Plus(RoleTally(team, rs, AsHome), RoleTally(team, rs, AsAway))
  }

  /** The derived fields: goal difference and three points a win, one a draw. */
  function Finish(c: Tally): Stats
  {
    Stats(c.played, c.won, c.drawn, c.lost, c.goalsFor, c.goalsAgainst,
          c.goalsFor - c.goalsAgainst, 3 * c.won + c.drawn)
  }

  /** The row Standing.calculate writes for `team` from the result table `rs`.
      It depends on nothing else: every counter is reset before counting. */
  function TeamStats(team: TeamId, rs: seq<Result>): (s: Stats)
    ensures s.played == s.won + s.drawn + s.lost
    ensures s.points == 3 * s.won + s.drawn
    ensures s.goalDifference == s.goalsFor - s.goalsAgainst
  {
    Finish(TeamTally(team, rs))
  }

  lemma StepPlus(x: Tally, y: Tally, r: Result, team: TeamId, role: Role)
    ensures Step(Plus(x, y), r, team, role) == Plus(x, Step(y, r, team, role))
  {
  }

  /** Counting over a concatenation is adding the two counts. */
  lemma {:induction false} RoleTallyAppend(team: TeamId, a: seq<Result>, b: seq<Result>, role: Role)
    ensures RoleTally(team, a + b, role) == Plus(RoleTally(team, a, role), RoleTally(team, b, role))
    decreases |b|
  {
    if b == [] {
      assert a + b == a;
    } else {
      var b', last := b[..|b| - 1], b[|b| - 1];
      var ab := a + b;
      assert ab[..|ab| - 1] == a + b';
      assert ab[|ab| - 1] == last;
      RoleTallyAppend(team, a, b', role);
      StepPlus(RoleTally(team, a, role), RoleTally(team, b', role), last, team, role);
    }
  }

  /** Counting one more result of the table, as a loop over it does. */
  lemma RoleTallyNext(team: TeamId, rs: seq<Result>, i: nat, role: Role)
    requires i < |rs|
    ensures RoleTally(team, rs[..i + 1], role) == Step(RoleTally(team, rs[..i], role), rs[i], team, role)
  {
    assert rs[..i + 1][..i] == rs[..i];
  }

  /** The counters of a one-result table. */
  lemma RoleTallySingle(team: TeamId, r: Result, role: Role)
    ensures RoleTally(team, [r], role) == Step(NoGames(), r, team, role)
  {
    assert [r][..0] == [];
  }

  lemma TeamTallyAppend(team: TeamId, a: seq<Result>, b: seq<Result>)
    ensures TeamTally(team, a + b) == Plus(TeamTally(team, a), TeamTally(team, b))
  {
    RoleTallyAppend(team, a, b, AsHome);
    RoleTallyAppend(team, a, b, AsAway);
  }

  /** The recount does not depend on the order in which the store returns results. */
  lemma TeamStatsOrderFree(team: TeamId, a: seq<Result>, b: seq<Result>)
    ensures TeamStats(team, a + b) == TeamStats(team, b + a)
  {
    TeamTallyAppend(team, a, b);
    TeamTallyAppend(team, b, a);
  }

  /** Deleting a result and recounting removes exactly that result's contribution. */
  lemma DeletionRetracts(team: TeamId, before: seq<Result>, x: Result, after: seq<Result>)
    ensures TeamTally(team, before + [x] + after)
         == Plus(TeamTally(team, before + after), TeamTally(team, [x]))
  {
    TeamTallyAppend(team, before + [x], after);
    TeamTallyAppend(team, before, [x]);
    TeamTallyAppend(team, before, after);
  }

  /** Only validated results count: an unvalidated one can be dropped without effect. */
  lemma UnvalidatedIgnored(team: TeamId, before: seq<Result>, x: Result, after: seq<Result>)
    requires !x.validated
    ensures TeamStats(team, before + [x] + after) == TeamStats(team, before + after)
  {
    DeletionRetracts(team, before, x, after);
    UnvalidatedCountsNothing(team, x);
    PlusNoGames(TeamTally(team, before + after));
  }

  lemma UnvalidatedCountsNothing(team: TeamId, x: Result)
    requires !x.validated
    ensures TeamTally(team, [x]) == NoGames()
  {
    var h, a := RoleTally(team, [x], AsHome), RoleTally(team, [x], AsAway);
    assert h == NoGames() by { RoleTallySingle(team, x, AsHome); }
    assert a == NoGames() by { RoleTallySingle(team, x, AsAway); }
    assert TeamTally(team, [x]) == Plus(h, a);
  }

  lemma PlusNoGames(t: Tally)
    ensures Plus(t, NoGames()) == t
  {
  }

  /** One validated result seen from both sides: the home and away rows are mirror images. */
  lemma ResultMirror(r: Result)
    requires r.validated && r.home != r.away
    ensures var h, a := TeamStats(r.home, [r]), TeamStats(r.away, [r]);
      && h.played == 1 && a.played == 1
      && h.won == a.lost && h.lost == a.won && h.drawn == a.drawn
      && h.goalsFor == a.goalsAgainst && h.goalsAgainst == a.goalsFor
      && h.goalDifference == -a.goalDifference
  {
    RoleTallySingle(r.home, r, AsHome);
    RoleTallySingle(r.home, r, AsAway);
    RoleTallySingle(r.away, r, AsHome);
    RoleTallySingle(r.away, r, AsAway);
  }

  /** Result.winner and the standings agree: the winner is the side whose row
      gains a win, and a draw is a drawn game for the home side. */
  lemma WinnerAgreesWithStandings(r: Result)
    requires r.validated && r.home != r.away
    ensures ResultWinner(r) == Some(r.home) <==> TeamStats(r.home, [r]).won == 1
    ensures ResultWinner(r) == Some(r.away) <==> TeamStats(r.away, [r]).won == 1
    ensures ResultWinner(r).None? <==> TeamStats(r.home, [r]).drawn == 1
  {
    RoleTallySingle(r.home, r, AsHome);
    RoleTallySingle(r.home, r, AsAway);
    RoleTallySingle(r.away, r, AsHome);
    RoleTallySingle(r.away, r, AsAway);
  }
}
