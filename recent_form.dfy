/** The "recent form" strip of a team's page: one letter per recent validated
    result, V for a win, N for a draw, D for a defeat, seen from the team's side. */
module RecentForm {
  import opened Models

  /** How many results the strip shows. */
  const FormLength: nat := 5

  /** The letter for a game in which the team scored `mine` and conceded `theirs`. */
  function Verdict(mine: nat, theirs: nat): char
  {
    if mine > theirs then 'V' else if mine == theirs then 'N' else 'D'
  }

  /** The letter of one result: read from the home side when the team is the
      home team, from the away side otherwise. */
  function Letter(team: TeamId, r: Result): char
  {
    if r.home == team then Verdict(r.homeScore, r.awayScore)
    else Verdict(r.awayScore, r.homeScore)
  }

  /** The letters of a list of results, in the list's order. */
  function Letters(team: TeamId, rs: seq<Result>): (ls: seq<char>)
    ensures |ls| == |rs|
    ensures forall k :: 0 <= k < |rs| ==> ls[k] == Letter(team, rs[k])
  {
    if rs == [] then []
    else Letters(team, rs[..|rs| - 1]) + [Letter(team, rs[|rs| - 1])]
  }

  /** How many times `c` occurs in `ls`. */
  function Occurrences(ls: seq<char>, c: char): nat
  {
    if ls == [] then 0
    else Occurrences(ls[..|ls| - 1], c) + (if ls[|ls| - 1] == c then 1 else 0)
  }

  /** The strip for `results`, most recent first: the letters of at most the
      first FormLength of them. */
  method FormLetters(team: TeamId, results: seq<Result>) returns (letters: seq<char>)
    ensures |letters| == if |results| < FormLength then |results| else FormLength
    ensures letters == Letters(team, results[..|letters|])
  {
    var n := if |results| < FormLength then |results| else FormLength;
    letters := [];
    var i := 0;
    while i < n
      invariant 0 <= i <= n
      invariant letters == Letters(team, results[..i])
    {
      var r := results[i];
      var letter: char;
      if r.home == team {
        if r.homeScore > r.awayScore {
          letter := 'V';
        } else if r.homeScore == r.awayScore {
          letter := 'N';
        } else {
          letter := 'D';
        }
      } else {
        if r.awayScore > r.homeScore {
          letter := 'V';
        } else if r.awayScore == r.homeScore {
          letter := 'N';
        } else {
          letter := 'D';
        }
      }
      assert results[..i + 1][..i] == results[..i];
      letters := letters + [letter];
      i := i + 1;
    }
  }

  /** A validated result between two different teams, one of them `team`. */
  predicate Involves(team: TeamId, r: Result)
  {
    r.validated && r.home != r.away && (r.home == team || r.away == team)
  }

  /** What one such result adds to the team's counters, read off its letter. */
  lemma LetterTally(team: TeamId, r: Result)
    requires Involves(team, r)
    ensures var t := TeamTally(team, [r]);
      && t.played == 1
      && t.won == (if Letter(team, r) == 'V' then 1 else 0)
      && t.drawn == (if Letter(team, r) == 'N' then 1 else 0)
      && t.lost == (if Letter(team, r) == 'D' then 1 else 0)
  {
    RoleTallySingle(team, r, AsHome);
    RoleTallySingle(team, r, AsAway);
  }

  /** The letter of a validated result between two different teams agrees
      with what the team's standings row gains from it. */
  lemma LetterAgreesWithStandings(team: TeamId, r: Result)
    requires Involves(team, r)
    ensures Letter(team, r) == 'V' <==> TeamStats(team, [r]).won == 1
    ensures Letter(team, r) == 'N' <==> TeamStats(team, [r]).drawn == 1
    ensures Letter(team, r) == 'D' <==> TeamStats(team, [r]).lost == 1
    ensures TeamStats(team, [r]).played == 1
  {
    LetterTally(team, r);
  }

  /** Appending a result appends its letter to the count. */
  lemma OccurrencesStep(team: TeamId, init: seq<Result>, last: Result, c: char)
    ensures Occurrences(Letters(team, init + [last]), c)
         == Occurrences(Letters(team, init), c) + (if Letter(team, last) == c then 1 else 0)
  {
    var rs := init + [last];
    assert rs[..|rs| - 1] == init;
    var ls := Letters(team, rs);
    assert ls[..|ls| - 1] == Letters(team, init);
  }

  /** The letter counts of a strip are the counters of the team's recount. */
  lemma {:induction false} FormAgreesWithTally(team: TeamId, rs: seq<Result>)
    requires forall r :: r in rs ==> Involves(team, r)
    ensures var t := TeamTally(team, rs);
      && Occurrences(Letters(team, rs), 'V') == t.won
      && Occurrences(Letters(team, rs), 'N') == t.drawn
      && Occurrences(Letters(team, rs), 'D') == t.lost
      && t.played == |rs|
  {
    if rs == [] {
      assert TeamTally(team, rs) == Plus(NoGames(), NoGames());
    } else {
      var init, last := rs[..|rs| - 1], rs[|rs| - 1];
      assert init + [last] == rs;
      assert forall r :: r in init ==> r in rs;
      FormAgreesWithTally(team, init);
      LetterTally(team, last);
      TeamTallyAppend(team, init, [last]);
      OccurrencesStep(team, init, last, 'V');
      OccurrencesStep(team, init, last, 'N');
      OccurrencesStep(team, init, last, 'D');
    }
  }

  /** Over results the team took part in, the strip counts exactly the wins,
      draws and defeats the standings count, and each result once. */
  lemma FormAgreesWithStandings(team: TeamId, rs: seq<Result>)
    requires forall r :: r in rs ==> Involves(team, r)
    ensures Occurrences(Letters(team, rs), 'V') == TeamStats(team, rs).won
    ensures Occurrences(Letters(team, rs), 'N') == TeamStats(team, rs).drawn
    ensures Occurrences(Letters(team, rs), 'D') == TeamStats(team, rs).lost
    ensures TeamStats(team, rs).played == |rs|
  {
    FormAgreesWithTally(team, rs);
  }
}
