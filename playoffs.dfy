/** The playoff bracket: top-four seeding into two two-legged semifinals, the
    resolution of a two-legged tie, and the advancement of winners and losers
    into the final and the third-place match. */
module Playoffs {
  import opened Wrappers
  import opened Models
  import opened Ranking

  // ---------------------------------------------------------------------------
  // Seeding (generate_playoffs)
  // ---------------------------------------------------------------------------

  /** The six rows generate_playoffs creates, in creation order, for the seeds
      t0..t3 (best first): 1st against 4th and 2nd against 3rd, each over two
      legs with the venues swapped; third place and final start without teams. */
  function Seeded(t0: TeamId, t1: TeamId, t2: TeamId, t3: TeamId): seq<PlayoffMatch>
  {
    [ NewPlayoffMatch(Semi1Leg1, Some(t0), Some(t3)),
      NewPlayoffMatch(Semi1Leg2, Some(t3), Some(t0)),
      NewPlayoffMatch(Semi2Leg1, Some(t1), Some(t2)),
      NewPlayoffMatch(Semi2Leg2, Some(t2), Some(t1)),
      NewPlayoffMatch(ThirdPlace, None, None),
      NewPlayoffMatch(Final, None, None) ]
  }

  /** The four seeds: the teams of the first four rows of the ranked table. */
  function TopFour(standings: seq<Standing>): (seeds: seq<TeamId>)
    requires |standings| >= 4
    ensures |seeds| == 4
  {
    var o := RankOrder(standings);
    [o[0].team, o[1].team, o[2].team, o[3].team]
  }

  /** The seeds are four rows of the table, and no other row is ahead of any of them. */
  lemma TopFourAreBest(standings: seq<Standing>)
    requires |standings| >= 4
    ensures forall i :: 0 <= i < 4 ==> exists s :: s in standings && s.team == TopFour(standings)[i]
    ensures forall i, j :: 0 <= i < 4 <= j < |standings| ==>
      !Ahead(RankOrder(standings)[j].stats, RankOrder(standings)[i].stats)
  {
    var o := RankOrder(standings);
    forall i | 0 <= i < 4
      ensures exists s :: s in standings && s.team == TopFour(standings)[i]
    {
      assert o[i] in multiset(o);
      assert o[i] in standings;
    }
  }

  /** The shape every generated bracket keeps: the six rounds in creation
      order, and each semifinal's second leg with the first leg's venues swapped. */
  predicate BracketWellFormed(pms: seq<PlayoffMatch>)
  {
    && |pms| == 6
    && pms[0].round == Semi1Leg1 && pms[1].round == Semi1Leg2
    && pms[2].round == Semi2Leg1 && pms[3].round == Semi2Leg2
    && pms[4].round == ThirdPlace && pms[5].round == Final
    && pms[1].home == pms[0].away && pms[1].away == pms[0].home
    && pms[3].home == pms[2].away && pms[3].away == pms[2].home
  }

  /** Seeding pairs 1st with 4th and 2nd with 3rd, leaves the last two rounds
      empty and nothing played, and so is a well-formed bracket. */
  lemma SeededWellFormed(t0: TeamId, t1: TeamId, t2: TeamId, t3: TeamId)
    ensures var pms := Seeded(t0, t1, t2, t3);
      && BracketWellFormed(pms)
      && pms[0].home == Some(t0) && pms[0].away == Some(t3)
      && pms[2].home == Some(t1) && pms[2].away == Some(t2)
      && pms[4].home.None? && pms[4].away.None? && pms[5].home.None? && pms[5].away.None?
      && (forall k :: 0 <= k < 6 ==> !pms[k].played)
  {
  }

  // ---------------------------------------------------------------------------
  // A two-legged tie (_determine_semi_winner)
  // ---------------------------------------------------------------------------

  /** The (winner, loser) pair; both None when the tie is undecided. */
  datatype Tie = Tie(winner: Option<TeamId>, loser: Option<TeamId>)

  /** Goals of the first leg's home side A over both legs. */
  function AggregateA(leg1: PlayoffMatch, leg2: PlayoffMatch): nat
  {
    leg1.homeScore + leg2.awayScore
  }

  /** Goals of the first leg's away side B over both legs. */
  function AggregateB(leg1: PlayoffMatch, leg2: PlayoffMatch): nat
  {
    leg1.awayScore + leg2.homeScore
  }

  /** The higher aggregate wins; on a level aggregate a penalty winner recorded
      on the second leg wins; failing that, more away goals win; else undecided. */
  function DetermineSemiWinner(leg1: PlayoffMatch, leg2: PlayoffMatch): Tie
  {
    var a, b := leg1.home, leg1.away;
    var aTotal, bTotal := AggregateA(leg1, leg2), AggregateB(leg1, leg2);
    if aTotal > bTotal then Tie(a, b)
    else if bTotal > aTotal then Tie(b, a)
    else if leg2.penalties && leg2.penaltyWinner.Some? then
      var w := leg2.penaltyWinner;
      Tie(w, if w == a then b else a)
    else if leg2.awayScore > leg1.awayScore then Tie(a, b)
    else if leg1.awayScore > leg2.awayScore then Tie(b, a)
    else Tie(None, None)
  }

  /** A tie between two known, different teams, whose recorded penalty winner
      (if any) is one of them. */
  predicate ProperTie(leg1: PlayoffMatch, leg2: PlayoffMatch)
  {
    && leg1.home.Some? && leg1.away.Some? && leg1.home != leg1.away
    && (leg2.penaltyWinner.Some? ==> leg2.penaltyWinner == leg1.home || leg2.penaltyWinner == leg1.away)
  }

  /** Whenever a winner is returned, winner and loser are the two sides of the tie. */
  lemma SemiWinnerSides(leg1: PlayoffMatch, leg2: PlayoffMatch)
    requires ProperTie(leg1, leg2)
    ensures var t := DetermineSemiWinner(leg1, leg2);
      t.winner.Some? ==>
        && t.loser.Some? && t.winner != t.loser
        && (t.winner == leg1.home || t.winner == leg1.away)
        && (t.loser == leg1.home || t.loser == leg1.away)
  {
  }

  /** A strictly higher aggregate decides the tie, whatever else was recorded. */
  lemma SemiWinnerByAggregate(leg1: PlayoffMatch, leg2: PlayoffMatch)
    ensures AggregateA(leg1, leg2) > AggregateB(leg1, leg2) ==>
      DetermineSemiWinner(leg1, leg2) == Tie(leg1.home, leg1.away)
    ensures AggregateB(leg1, leg2) > AggregateA(leg1, leg2) ==>
      DetermineSemiWinner(leg1, leg2) == Tie(leg1.away, leg1.home)
  {
  }

  /** Between two known teams the tie is undecided exactly when the aggregate is
      level, no penalty winner is recorded on the second leg, and the away goals
      are level. */
  lemma SemiUndecided(leg1: PlayoffMatch, leg2: PlayoffMatch)
    requires leg1.home.Some? && leg1.away.Some?
    ensures DetermineSemiWinner(leg1, leg2).winner.None? <==>
      && AggregateA(leg1, leg2) == AggregateB(leg1, leg2)
      && !(leg2.penalties && leg2.penaltyWinner.Some?)
      && leg2.awayScore == leg1.awayScore
  {
  }

  /** Without shoot-outs the order of the legs does not matter: the aggregate
      and the away goals are symmetric in the two legs. */
  lemma SemiLegOrderIrrelevant(leg1: PlayoffMatch, leg2: PlayoffMatch)
    requires leg2.home == leg1.away && leg2.away == leg1.home
    requires !leg1.penalties && !leg2.penalties
    ensures DetermineSemiWinner(leg2, leg1) == DetermineSemiWinner(leg1, leg2)
  {
  }

  /** A level tie settled on penalties goes to the winner of the second leg as
      PlayoffMatch.winner reports it. */
  lemma SemiShootoutAgreesWithLeg(leg1: PlayoffMatch, leg2: PlayoffMatch)
    requires AggregateA(leg1, leg2) == AggregateB(leg1, leg2)
    requires leg2.played && leg2.penalties && leg2.penaltyWinner.Some?
    ensures DetermineSemiWinner(leg1, leg2).winner == PlayoffWinner(leg2)
  {
  }

  // ---------------------------------------------------------------------------
  // Advancement (_update_playoff_bracket)
  // ---------------------------------------------------------------------------

  /** The index of the first row of `round` (and played, when `played` is set),
      as the ordered `.first()` query finds it. */
  function FirstOf(pms: seq<PlayoffMatch>, round: Round, playedOnly: bool): (r: Option<nat>)
    ensures r.Some? ==> r.value < |pms| && pms[r.value].round == round && (playedOnly ==> pms[r.value].played)
    ensures r.Some? ==> forall k :: 0 <= k < r.value ==> !(pms[k].round == round && (playedOnly ==> pms[k].played))
    ensures r.None? ==> forall k :: 0 <= k < |pms| ==> !(pms[k].round == round && (playedOnly ==> pms[k].played))
  {
    if pms == [] then None
    else if pms[0].round == round && (playedOnly ==> pms[0].played) then Some(0)
    else
      match FirstOf(pms[1..], round, playedOnly)
      case None => None
      case Some(k) => Some(k + 1)
  }

  /** The outcome of a semifinal: undecided unless both legs are played. */
  function Resolve(pms: seq<PlayoffMatch>, first: Round, second: Round): Tie
  {
    match (FirstOf(pms, first, true), FirstOf(pms, second, true))
    case (Some(i), Some(j)) => DetermineSemiWinner(pms[i], pms[j])
    case _ => Tie(None, None)
  }

  /** The finalists and the losers, semifinal 1 first, as the two lists collect them. */
  function Qualified(pms: seq<PlayoffMatch>): (q: (seq<Option<TeamId>>, seq<Option<TeamId>>))
  {
    var t1, t2 := Resolve(pms, Semi1Leg1, Semi1Leg2), Resolve(pms, Semi2Leg1, Semi2Leg2);
    ((if t1.winner.Some? then [t1.winner] else []) + (if t2.winner.Some? then [t2.winner] else []),
     (if t1.winner.Some? then [t1.loser] else []) + (if t2.winner.Some? then [t2.loser] else []))
  }

  /** Writes the two teams into the first row of `round`, if there is one. */
  function SetTeams(pms: seq<PlayoffMatch>, round: Round, home: Option<TeamId>, away: Option<TeamId>): seq<PlayoffMatch>
  {
    match FirstOf(pms, round, false)
    case None => pms
    case Some(i) => pms[i := pms[i].(home := home, away := away)]
  }

  /** The bracket after _update_playoff_bracket. */
  function Advanced(pms: seq<PlayoffMatch>): seq<PlayoffMatch>
  {
    var (finalists, losers) := Qualified(pms);
    var withFinal := if |finalists| == 2 then SetTeams(pms, Final, finalists[0], finalists[1]) else pms;
    if |losers| == 2 then SetTeams(withFinal, ThirdPlace, losers[0], losers[1]) else withFinal
  }

  /** Both semifinals decided. */
  predicate BothDecided(pms: seq<PlayoffMatch>)
  {
    Resolve(pms, Semi1Leg1, Semi1Leg2).winner.Some? && Resolve(pms, Semi2Leg1, Semi2Leg2).winner.Some?
  }

  lemma QualifiedBoth(pms: seq<PlayoffMatch>)
    ensures var (finalists, losers) := Qualified(pms);
      && |finalists| == |losers|
      && (|finalists| == 2 <==> BothDecided(pms))
      && (BothDecided(pms) ==>
            var t1, t2 := Resolve(pms, Semi1Leg1, Semi1Leg2), Resolve(pms, Semi2Leg1, Semi2Leg2);
            finalists == [t1.winner, t2.winner] && losers == [t1.loser, t2.loser])
  {
  }

  /** Until both semifinals are decided the bracket is left exactly as it is. */
  lemma AdvancedWaitsForBoth(pms: seq<PlayoffMatch>)
    requires !BothDecided(pms)
    ensures Advanced(pms) == pms
  {
    QualifiedBoth(pms);
  }

  /** Once both are decided, the first final row gets (winner 1, winner 2) and
      the first third-place row gets (loser 1, loser 2); every other field and
      every other row is unchanged. */
  lemma AdvancedFills(pms: seq<PlayoffMatch>)
    requires BothDecided(pms)
    ensures var out := Advanced(pms);
      var t1, t2 := Resolve(pms, Semi1Leg1, Semi1Leg2), Resolve(pms, Semi2Leg1, Semi2Leg2);
      && |out| == |pms|
      && (forall k :: 0 <= k < |pms| && Some(k) != FirstOf(pms, Final, false) && Some(k) != FirstOf(pms, ThirdPlace, false) ==>
            out[k] == pms[k])
      && (FirstOf(pms, Final, false).Some? ==>
            var f := FirstOf(pms, Final, false).value;
            out[f] == pms[f].(home := t1.winner, away := t2.winner))
      && (FirstOf(pms, ThirdPlace, false).Some? ==>
            var h := FirstOf(pms, ThirdPlace, false).value;
            out[h] == pms[h].(home := t1.loser, away := t2.loser))
  {
    QualifiedBoth(pms);
    var (finalists, losers) := Qualified(pms);
    var withFinal := SetTeams(pms, Final, finalists[0], finalists[1]);
    SetTeamsKeepsOthers(pms, Final, finalists[0], finalists[1], ThirdPlace);
    SetTeamsWrites(pms, Final, finalists[0], finalists[1]);
    SetTeamsWrites(withFinal, ThirdPlace, losers[0], losers[1]);
    assert Advanced(pms) == SetTeams(withFinal, ThirdPlace, losers[0], losers[1]);
  }

  /** Writing the teams of a round changes that round's first row and nothing else. */
  lemma SetTeamsWrites(pms: seq<PlayoffMatch>, round: Round, home: Option<TeamId>, away: Option<TeamId>)
    ensures var out := SetTeams(pms, round, home, away);
      && |out| == |pms|
      && (forall k :: 0 <= k < |pms| && Some(k) != FirstOf(pms, round, false) ==> out[k] == pms[k])
      && (FirstOf(pms, round, false).Some? ==>
            var i := FirstOf(pms, round, false).value;
            out[i] == pms[i].(home := home, away := away))
  {
  }

  /** Writing the teams of one round's row keeps where the rows of every other
      round are, and which semifinal legs are played. */
  lemma SetTeamsKeepsOthers(pms: seq<PlayoffMatch>, round: Round, home: Option<TeamId>, away: Option<TeamId>, other: Round)
    requires other != round
    ensures var out := SetTeams(pms, round, home, away);
      && |out| == |pms|
      && (forall k :: 0 <= k < |pms| ==> out[k].round == pms[k].round && out[k].played == pms[k].played)
      && (forall k :: 0 <= k < |pms| && pms[k].round != round ==> out[k] == pms[k])
      && FirstOf(out, other, false) == FirstOf(pms, other, false)
      && FirstOf(out, other, true) == FirstOf(pms, other, true)
  {
    var out := SetTeams(pms, round, home, away);
    SameRoundsSameFirst(pms, out, other, false);
    SameRoundsSameFirst(pms, out, other, true);
  }

  /** FirstOf only looks at the rounds and the played flags. */
  lemma {:induction false} SameRoundsSameFirst(a: seq<PlayoffMatch>, b: seq<PlayoffMatch>, round: Round, playedOnly: bool)
    requires |a| == |b|
    requires forall k :: 0 <= k < |a| ==> a[k].round == b[k].round && a[k].played == b[k].played
    ensures FirstOf(a, round, playedOnly) == FirstOf(b, round, playedOnly)
    decreases |a|
  {
    if a != [] {
      SameRoundsSameFirst(a[1..], b[1..], round, playedOnly);
    }
  }

  /** The semifinal outcomes survive advancement. */
  lemma AdvancedKeepsSemis(pms: seq<PlayoffMatch>)
    ensures var out := Advanced(pms);
      && |out| == |pms|
      && (forall k :: 0 <= k < |pms| ==> out[k].round == pms[k].round && out[k].played == pms[k].played)
      && (forall k :: 0 <= k < |pms| && pms[k].round != Final && pms[k].round != ThirdPlace ==> out[k] == pms[k])
      && Resolve(out, Semi1Leg1, Semi1Leg2) == Resolve(pms, Semi1Leg1, Semi1Leg2)
      && Resolve(out, Semi2Leg1, Semi2Leg2) == Resolve(pms, Semi2Leg1, Semi2Leg2)
  {
    var out := Advanced(pms);
    var (finalists, losers) := Qualified(pms);
    var withFinal := if |finalists| == 2 then SetTeams(pms, Final, finalists[0], finalists[1]) else pms;
    if |finalists| == 2 {
      SetTeamsKeepsOthers(pms, Final, finalists[0], finalists[1], ThirdPlace);
    }
    if |losers| == 2 {
      SetTeamsKeepsOthers(withFinal, ThirdPlace, losers[0], losers[1], Final);
    }
    SameRoundsSameFirst(pms, out, Semi1Leg1, true);
    SameRoundsSameFirst(pms, out, Semi1Leg2, true);
    SameRoundsSameFirst(pms, out, Semi2Leg1, true);
    SameRoundsSameFirst(pms, out, Semi2Leg2, true);
    ResolveSameLegs(pms, out, Semi1Leg1, Semi1Leg2);
    ResolveSameLegs(pms, out, Semi2Leg1, Semi2Leg2);
  }

  lemma ResolveSameLegs(a: seq<PlayoffMatch>, b: seq<PlayoffMatch>, first: Round, second: Round)
    requires first != Final && first != ThirdPlace && second != Final && second != ThirdPlace
    requires |a| == |b|
    requires forall k :: 0 <= k < |a| && a[k].round != Final && a[k].round != ThirdPlace ==> b[k] == a[k]
    requires FirstOf(a, first, true) == FirstOf(b, first, true)
    requires FirstOf(a, second, true) == FirstOf(b, second, true)
    ensures Resolve(a, first, second) == Resolve(b, first, second)
  {
  }

  /** Running the advancement again changes nothing. */
  lemma AdvancedIdempotent(pms: seq<PlayoffMatch>)
    ensures Advanced(Advanced(pms)) == Advanced(pms)
  {
    var out := Advanced(pms);
    AdvancedKeepsSemis(pms);
    if BothDecided(pms) {
      AdvancedFills(pms);
      AdvancedFills(out);
      SameRoundsSameFirst(pms, out, Final, false);
      SameRoundsSameFirst(pms, out, ThirdPlace, false);
      forall k | 0 <= k < |out|
        ensures Advanced(out)[k] == out[k]
      {
      }
    } else {
      AdvancedWaitsForBoth(out);
    }
  }

  /** Advancement keeps a bracket well formed. */
  lemma AdvancedWellFormed(pms: seq<PlayoffMatch>)
    requires BracketWellFormed(pms)
    ensures BracketWellFormed(Advanced(pms))
  {
    AdvancedKeepsSemis(pms);
  }

  /** In a well-formed bracket whose semifinal legs are played, each round's
      `.first()` query finds that round's own row. */
  lemma BracketRows(pms: seq<PlayoffMatch>)
    requires BracketWellFormed(pms)
    requires pms[0].played && pms[1].played && pms[2].played && pms[3].played
    ensures FirstOf(pms, Semi1Leg1, true) == Some(0) && FirstOf(pms, Semi1Leg2, true) == Some(1)
    ensures FirstOf(pms, Semi2Leg1, true) == Some(2) && FirstOf(pms, Semi2Leg2, true) == Some(3)
    ensures FirstOf(pms, ThirdPlace, false) == Some(4) && FirstOf(pms, Final, false) == Some(5)
  {
    FirstOfRow(pms, 0, true);
    FirstOfRow(pms, 1, true);
    FirstOfRow(pms, 2, true);
    FirstOfRow(pms, 3, true);
    FirstOfRow(pms, 4, false);
    FirstOfRow(pms, 5, false);
  }

  /** A row that qualifies, with no qualifying row before it, is the one found. */
  lemma FirstOfRow(pms: seq<PlayoffMatch>, i: nat, playedOnly: bool)
    requires i < |pms| && (playedOnly ==> pms[i].played)
    requires forall k :: 0 <= k < i ==> pms[k].round != pms[i].round
    ensures FirstOf(pms, pms[i].round, playedOnly) == Some(i)
  {
  }

  /** In a seeded bracket whose semifinals are both decided between their own
      teams, the final and third-place match share out the four seeds: each
      semifinal sends one team to each. */
  lemma SeedsShareOut(pms: seq<PlayoffMatch>)
    requires BracketWellFormed(pms) && BothDecided(pms)
    requires ProperTie(pms[0], pms[1]) && ProperTie(pms[2], pms[3])
    requires pms[0].played && pms[1].played && pms[2].played && pms[3].played
    ensures var out := Advanced(pms);
      && {out[5].home, out[4].home} == {pms[0].home, pms[0].away}
      && {out[5].away, out[4].away} == {pms[2].home, pms[2].away}
  {
    BracketRows(pms);
    SemiWinnerSides(pms[0], pms[1]);
    SemiWinnerSides(pms[2], pms[3]);
    AdvancedFills(pms);
  }
}
