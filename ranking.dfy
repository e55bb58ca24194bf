/** The order of the league table: points descending, then goal difference
    descending, then goals for descending (the `ordering` of Standing and the
    order_by of every ranking query). Rows that tie on all three keys keep the
    order in which the table holds them. */
module Ranking {
  import opened Models

  /** `a` is strictly ahead of `b` in the table. */
  predicate Ahead(a: Stats, b: Stats)
  {
    a.points > b.points
    || (a.points == b.points && a.goalDifference > b.goalDifference)
    || (a.points == b.points && a.goalDifference == b.goalDifference && a.goalsFor > b.goalsFor)
  }

  /** Being ahead is a strict order, and "not behind" is transitive, so ties
      are exactly equal keys. */
  lemma AheadOrder(a: Stats, b: Stats, c: Stats)
    ensures !Ahead(a, a)
    ensures Ahead(a, b) ==> !Ahead(b, a)
    ensures Ahead(a, b) && Ahead(b, c) ==> Ahead(a, c)
    ensures !Ahead(a, b) && !Ahead(b, c) ==> !Ahead(a, c)
    ensures !Ahead(a, b) && !Ahead(b, a) <==>
      a.points == b.points && a.goalDifference == b.goalDifference && a.goalsFor == b.goalsFor
  {
  }

  /** No row is strictly ahead of a row listed before it. */
  predicate Ranked(rows: seq<Standing>)
  {
    forall i, j :: 0 <= i < j < |rows| ==> !Ahead(rows[j].stats, rows[i].stats)
  }

  /** Places `x` before the first row it is not behind: ties stay in their original order. */
  function Insert(x: Standing, rows: seq<Standing>): (out: seq<Standing>)
    requires Ranked(rows)
    ensures multiset(out) == multiset(rows) + multiset{x}
    ensures Ranked(out)
    ensures |out| == |rows| + 1
  {
    if rows == [] then [x]
    else if Ahead(rows[0].stats, x.stats) then
      assert rows == [rows[0]] + rows[1..];
      var rest := Insert(x, rows[1..]);
      InsertBehind(x, rows, rest);
      [rows[0]] + rest
    else
      InsertAhead(x, rows);
      [x] + rows
  }

  lemma InsertAhead(x: Standing, rows: seq<Standing>)
    requires Ranked(rows) && rows != [] && !Ahead(rows[0].stats, x.stats)
    ensures Ranked([x] + rows)
    ensures multiset([x] + rows) == multiset(rows) + multiset{x}
  {
    var out := [x] + rows;
    forall i, j | 0 <= i < j < |out|
      ensures !Ahead(out[j].stats, out[i].stats)
    {
      if i == 0 && j > 1 {
        AheadOrder(out[j].stats, rows[0].stats, x.stats);
      }
    }
  }

  lemma InsertBehind(x: Standing, rows: seq<Standing>, rest: seq<Standing>)
    requires Ranked(rows) && rows != [] && Ahead(rows[0].stats, x.stats)
    requires Ranked(rest) && multiset(rest) == multiset(rows[1..]) + multiset{x}
    ensures Ranked([rows[0]] + rest)
  {
    var out := [rows[0]] + rest;
    forall j | 0 < j < |out|
      ensures !Ahead(out[j].stats, rows[0].stats)
    {
      var y := out[j];
      assert y == rest[j - 1];
      assert y in multiset(rest);
      if y == x {
        AheadOrder(rows[0].stats, x.stats, x.stats);
      } else {
        assert y in multiset(rows[1..]);
        var m :| 0 <= m < |rows[1..]| && rows[1..][m] == y;
        assert rows[1 + m] == y;
      }
    }
  }

  /** The table as the ranking query returns it: a stable sort of the rows. */
  function RankOrder(rows: seq<Standing>): (out: seq<Standing>)
    ensures multiset(out) == multiset(rows)
    ensures Ranked(out)
    ensures |out| == |rows|
  {
    if rows == [] then []
    else
      assert rows == [rows[0]] + rows[1..];
      Insert(rows[0], RankOrder(rows[1..]))
  }

  /** Ranking an already ranked table changes nothing. */
  lemma {:induction false} RankOrderOfRanked(rows: seq<Standing>)
    requires Ranked(rows)
    ensures RankOrder(rows) == rows
  {
    if rows != [] {
      RankOrderOfRanked(rows[1..]);
      if |rows| > 1 {
        assert !Ahead(rows[1].stats, rows[0].stats);
      }
    }
  }

  /** The rows with their 1-based rank written into `position`. */
  function Positioned(rows: seq<Standing>): (out: seq<Standing>)
    ensures |out| == |rows|
    ensures forall k :: 0 <= k < |rows| ==> out[k] == rows[k].(position := k + 1)
  {
    if rows == [] then []
    else Positioned(rows[..|rows| - 1]) + [rows[|rows| - 1].(position := |rows|)]
  }

  /** Writing positions keeps the order, the teams and their statistics. */
  lemma PositionedKeepsRanking(rows: seq<Standing>)
    requires Ranked(rows)
    ensures Ranked(Positioned(rows))
    ensures forall k :: 0 <= k < |rows| ==> Positioned(rows)[k].team == rows[k].team
  {
  }

  /** Positions already equal to the ranks are left as they are. */
  lemma PositionedIdempotent(rows: seq<Standing>)
    ensures Positioned(Positioned(rows)) == Positioned(rows)
  {
  }
}
