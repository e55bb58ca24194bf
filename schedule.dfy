/** The double round robin of generate_calendar (circle method): the active
    teams, padded with a bye when their number is odd, are laid out in slots;
    on every matchday slot i plays slot n-1-i, then slot 0 stays put and the
    other slots turn by one. A return phase mirrors the first one. */
module Schedule {
  import opened Wrappers
  import opened Models

  /** A slot of the circle: a team, or the bye (None). */
  type Slot = Option<TeamId>

  // ---------------------------------------------------------------------------
  // Slots and the rotation
  // ---------------------------------------------------------------------------

  function Wrap(teams: seq<TeamId>): (s: seq<Slot>)
    ensures |s| == |teams|
    ensures forall p :: 0 <= p < |s| ==> s[p] == Some(teams[p])
  {
    if teams == [] then [] else Wrap(teams[..|teams| - 1]) + [Some(teams[|teams| - 1])]
  }

  /** The team list with a bye appended when the count is odd. */
  function Pad(teams: seq<TeamId>): (s: seq<Slot>)
    ensures |s| == |teams| + |teams| % 2
    ensures |s| % 2 == 0
    ensures forall p :: 0 <= p < |teams| ==> s[p] == Some(teams[p])
    ensures |teams| % 2 == 1 ==> s[|teams|] == None
  {
    if |teams| % 2 != 0 then Wrap(teams) + [None] else Wrap(teams)
  }

  /** One turn of the circle: slot 0 fixed, the last slot moves to position 1. */
  function Rotate(s: seq<Slot>): (t: seq<Slot>)
    requires |s| >= 2
    ensures |t| == |s|
  {
    [s[0]] + [s[|s| - 1]] + s[1..|s| - 1]
  }

  /** Where the slot shown at position p after r turns started (for r < n-1):
      slot 0 never moves, the other n-1 slots turn by r places. */
  function Pos(n: nat, r: nat, p: nat): (q: nat)
    requires r < n - 1 && p < n
    ensures q < n
  {
    if p == 0 then 0 else if p - 1 >= r then p - r else p - r + n - 1
  }

  /** The slots after r < n-1 turns, read off directly. */
  function Rotated(s: seq<Slot>, r: nat): (t: seq<Slot>)
    requires |s| >= 2 && r < |s| - 1
    ensures |t| == |s|
  {
    [s[0]] + s[|s| - r..] + s[1..|s| - r]
  }

  lemma RotatedAt(s: seq<Slot>, r: nat, p: nat)
    requires |s| >= 2 && r < |s| - 1 && p < |s|
    ensures Rotated(s, r)[p] == s[Pos(|s|, r, p)]
  {
  }

  /** No slot value occurs twice (the teams are distinct and there is at most one bye). */
  predicate Distinct(s: seq<Slot>)
  {
    forall p, q :: 0 <= p < q < |s| ==> s[p] != s[q]
  }

  // ---------------------------------------------------------------------------
  // The fixtures, as a specification
  // ---------------------------------------------------------------------------

  /** The first-phase fixture for the pairing of positions p and q, unless one is the bye. */
  function Pairing(sched: seq<Slot>, day: nat, p: nat, q: nat): seq<Match>
    requires p < |sched| && q < |sched|
  {
    if sched[p].Some? && sched[q].Some?
    then [Match(sched[p].value, sched[q].value, day, Aller, false)]
    else []
  }

  /** The fixtures of matchday `day` produced by the first i pairings. */
  function DayFixtures(sched: seq<Slot>, day: nat, i: nat): seq<Match>
    requires i <= |sched| / 2
  {
    if i == 0 then []
    else DayFixtures(sched, day, i - 1) + Pairing(sched, day, i - 1, |sched| - i)
  }

  /** The fixtures of matchday d: every pairing of the slots after d-1 turns. */
  function Day(slots: seq<Slot>, d: nat): seq<Match>
    requires |slots| >= 2 && 1 <= d <= |slots| - 1
  {
    DayFixtures(Rotated(slots, d - 1), d, |slots| / 2)
  }

  /** The first-phase fixtures of matchdays 1..days. */
  function AllerFixtures(slots: seq<Slot>, days: nat): seq<Match>
    requires |slots| >= 2 && days <= |slots| - 1
  {
    if days == 0 then [] else AllerFixtures(slots, days - 1) + Day(slots, days)
  }

  /** The whole first phase for the (already shuffled) active teams. */
  function AllerPhase(teams: seq<TeamId>): seq<Match>
    requires |teams| >= 2
  {
    AllerFixtures(Pad(teams), |Pad(teams)| - 1)
  }

  /** The return fixture of a first-phase match: venues swapped, same matchday. */
  function Mirror(m: Match): Match
  {
    Match(m.away, m.home, m.matchday, Retour, false)
  }

  function ReturnPhase(aller: seq<Match>): (retour: seq<Match>)
    ensures |retour| == |aller|
    ensures forall k :: 0 <= k < |aller| ==> retour[k] == Mirror(aller[k])
  {
    if aller == [] then [] else ReturnPhase(aller[..|aller| - 1]) + [Mirror(aller[|aller| - 1])]
  }

  // ---------------------------------------------------------------------------
  // The loops of generate_calendar
  // ---------------------------------------------------------------------------

  /** The first phase for the (already shuffled) active teams: pad, then run the circle. */
  method GenerateAller(teams: seq<TeamId>) returns (aller: seq<Match>)
    requires |teams| >= 2
    ensures aller == AllerPhase(teams)
  {
    aller := Circle(Pad(teams));
  }

  /** The circle, built as the view builds it: one pass per matchday over the
      pairings, rebuilding the slot list after each matchday. */
  method Circle(slots: seq<Slot>) returns (aller: seq<Match>)
    requires |slots| >= 2 && |slots| % 2 == 0
    ensures aller == AllerFixtures(slots, |slots| - 1)
  {
    var n := |slots|;
    var matchdays := n - 1;
    var schedule := slots;
    aller := [];
    var matchday := 1;
    while matchday <= matchdays
      invariant 1 <= matchday <= matchdays + 1
      invariant |schedule| == n
      invariant matchday <= matchdays ==> schedule == Rotated(slots, matchday - 1)
      invariant aller == AllerFixtures(slots, matchday - 1)
    {
      ghost var day := DayFixtures(schedule, matchday, n / 2);
      assert AllerFixtures(slots, matchday) == aller + day;
      aller := PlayMatchday(aller, schedule, matchday);
      if matchday < matchdays {
        RotateStep(slots, matchday - 1);
      }
      schedule := Rotate(schedule);
      matchday := matchday + 1;
    }
  }

  /** The inner loop of one matchday: pair slot i with slot n-1-i and create
      the match unless one side is the bye. */
  method PlayMatchday(created: seq<Match>, schedule: seq<Slot>, matchday: nat) returns (aller: seq<Match>)
    ensures aller == created + DayFixtures(schedule, matchday, |schedule| / 2)
  {
    var n := |schedule|;
    var perDay := n / 2;
    aller := created;
    var i := 0;
    while i < perDay
      invariant 0 <= i <= perDay
      invariant aller == created + DayFixtures(schedule, matchday, i)
    {
      var home := schedule[i];
      var away := schedule[n - 1 - i];
      if home.Some? && away.Some? {
        aller := aller + [Match(home.value, away.value, matchday, Aller, false)];
      }
      i := i + 1;
    }
  }

  /** The return phase: one mirrored match per first-phase match, in order. */
  method GenerateRetour(aller: seq<Match>) returns (retour: seq<Match>)
    ensures retour == ReturnPhase(aller)
  {
    retour := [];
    var k := 0;
    while k < |aller|
      invariant 0 <= k <= |aller|
      invariant retour == ReturnPhase(aller[..k])
    {
      assert aller[..k + 1][..k] == aller[..k];
      retour := retour + [Mirror(aller[k])];
      k := k + 1;
    }
    assert aller[..k] == aller;
  }

  // ---------------------------------------------------------------------------
  // Properties of the rotation
  // ---------------------------------------------------------------------------

  lemma RotateAt(t: seq<Slot>, p: nat)
    requires |t| >= 2 && p < |t|
    ensures Rotate(t)[p] == if p == 0 then t[0] else if p == 1 then t[|t| - 1] else t[p - 1]
  {
  }

  /** One more turn of the view's rotation advances the slots by one round. */
  lemma RotateStep(s: seq<Slot>, r: nat)
    requires |s| >= 2 && r + 1 < |s| - 1
    ensures Rotate(Rotated(s, r)) == Rotated(s, r + 1)
  {
    var t, u := Rotate(Rotated(s, r)), Rotated(s, r + 1);
    forall p | 0 <= p < |s|
      ensures t[p] == u[p]
    {
      RotateAt(Rotated(s, r), p);
      RotatedAt(s, r + 1, p);
      if p == 1 {
        RotatedAt(s, r, |s| - 1);
      } else if p > 1 {
        RotatedAt(s, r, p - 1);
      }
    }
  }

  lemma RotateFirst(s: seq<Slot>)
    requires |s| >= 2
    ensures Rotated(s, 0) == s
  {
  }

  lemma RotatePermutes(t: seq<Slot>)
    requires |t| >= 2
    ensures multiset(Rotate(t)) == multiset(t)
  {
    assert t == [t[0]] + t[1..|t| - 1] + [t[|t| - 1]];
  }

  /** Along the rounds the view goes through, slot 0 never moves and the slots
      stay a permutation of the padded team list. */
  lemma RotationInvariant(s: seq<Slot>, r: nat)
    requires |s| >= 2 && r < |s| - 1
    ensures Rotated(s, r)[0] == s[0]
    ensures multiset(Rotated(s, r)) == multiset(s)
  {
    var n := |s|;
    assert s == [s[0]] + s[1..n - r] + s[n - r..];
  }

  /** Two positions of one round hold different starting slots. */
  lemma PosInjective(n: nat, r: nat, p: nat, q: nat)
    requires r < n - 1 && p < n && q < n && p != q
    ensures Pos(n, r, p) != Pos(n, r, q)
  {
  }

  /** Distinct slots stay distinct under rotation. */
  lemma RotatedDistinct(s: seq<Slot>, r: nat)
    requires |s| >= 2 && r < |s| - 1 && Distinct(s)
    ensures Distinct(Rotated(s, r))
  {
    var t := Rotated(s, r);
    forall p, q | 0 <= p < q < |t|
      ensures t[p] != t[q]
    {
      RotatedAt(s, r, p);
      RotatedAt(s, r, q);
      PosInjective(|s|, r, p, q);
    }
  }

  // ---------------------------------------------------------------------------
  // Which starting slots meet in which round
  // ---------------------------------------------------------------------------

  /** The starting slots paired by pairing j of round r, in either order, are x and y. */
  predicate PairsSlots(n: nat, r: nat, j: nat, x: nat, y: nat)
    requires r < n - 1 && j < n / 2
  {
    (Pos(n, r, j) == x && Pos(n, r, n - 1 - j) == y) ||
    (Pos(n, r, j) == y && Pos(n, r, n - 1 - j) == x)
  }

  /** Two starting slots meet in at most one round and one pairing. With n even,
      the sum of the two slots a pairing of round r joins is fixed by r modulo
      the odd number n-1, so it pins r down. */
  lemma SameSlotsSameRound(n: nat, r1: nat, j1: nat, r2: nat, j2: nat)
    requires n % 2 == 0 && n >= 2
    requires r1 < n - 1 && r2 < n - 1 && j1 < n / 2 && j2 < n / 2
    requires PairsSlots(n, r1, j1, Pos(n, r2, j2), Pos(n, r2, n - 1 - j2))
    ensures r1 == r2 && j1 == j2
  {
  }

  /** Any two starting slots x < y meet: the round and pairing where they do. */
  lemma MeetingRound(n: nat, x: nat, y: nat) returns (r: nat, j: nat)
    requires n % 2 == 0 && x < y < n
    ensures r < n - 1 && j < n / 2
    ensures PairsSlots(n, r, j, x, y)
  {
    if x == 0 {
      r, j := n - 1 - y, 0;
    } else if (y - x) % 2 == 0 {
      j := (y - x) / 2;
      r := j - y + n - 1;
    } else {
      j := (n - 1 - (y - x)) / 2;
      r := if j >= x then j - x else j - x + n - 1;
    }
  }

  // ---------------------------------------------------------------------------
  // Where each fixture comes from
  // ---------------------------------------------------------------------------

  /** x is the fixture of pairing j (slot j at home against slot n-1-j) of `sched` on `day`. */
  predicate PairedAt(sched: seq<Slot>, day: nat, j: nat, x: Match)
  {
    && j < |sched| / 2
    && sched[j] == Some(x.home) && sched[|sched| - 1 - j] == Some(x.away)
    && x == Match(x.home, x.away, day, Aller, false)
  }

  /** A matchday's fixtures are exactly the pairings without a bye. */
  lemma {:induction false} DayMembers(sched: seq<Slot>, day: nat, i: nat, x: Match)
    requires i <= |sched| / 2
    ensures x in DayFixtures(sched, day, i) <==> exists j: nat :: j < i && PairedAt(sched, day, j, x)
  {
    if i > 0 {
      DayMembers(sched, day, i - 1, x);
      if x in Pairing(sched, day, i - 1, |sched| - i) {
        assert PairedAt(sched, day, i - 1, x);
      }
      if PairedAt(sched, day, i - 1, x) {
        assert x in Pairing(sched, day, i - 1, |sched| - i);
      }
    }
  }

  /** The pairing a fixture of one matchday was created by. */
  lemma DayOrigin(sched: seq<Slot>, day: nat, x: Match) returns (j: nat)
    requires x in DayFixtures(sched, day, |sched| / 2)
    ensures PairedAt(sched, day, j, x)
  {
    DayMembers(sched, day, |sched| / 2, x);
    j :| j < |sched| / 2 && PairedAt(sched, day, j, x);
  }

  /** The matchday and pairing a first-phase fixture was created by. */
  lemma {:induction false} Origin(slots: seq<Slot>, days: nat, x: Match) returns (d: nat, j: nat)
    requires |slots| >= 2 && days <= |slots| - 1 && x in AllerFixtures(slots, days)
    ensures 1 <= d <= days && PairedAt(Rotated(slots, d - 1), d, j, x)
  {
    assert days > 0;
    if x in AllerFixtures(slots, days - 1) {
      d, j := Origin(slots, days - 1, x);
    } else {
      d := days;
      j := DayOrigin(Rotated(slots, d - 1), d, x);
    }
  }

  /** Every pairing without a bye of matchdays 1..days is created. */
  lemma Placed(slots: seq<Slot>, days: nat, r: nat, j: nat, x: Match)
    requires |slots| >= 2 && r < days <= |slots| - 1 && PairedAt(Rotated(slots, r), r + 1, j, x)
    ensures x in AllerFixtures(slots, days)
  {
    DayHas(Rotated(slots, r), r + 1, j, x);
    DayIncluded(slots, r + 1, days, x);
  }

  /** The fixtures of matchday d stay in the first phase as later matchdays are added. */
  lemma DayIncluded(slots: seq<Slot>, d: nat, days: nat, x: Match)
    requires |slots| >= 2 && 1 <= d <= days <= |slots| - 1 && x in Day(slots, d)
    ensures x in AllerFixtures(slots, days)
  {
    var upTo := AllerFixtures(slots, d);
    AllerStep(slots, d, d - 1);
    assert x in upTo;
    var k :| 0 <= k < |upTo| && upTo[k] == x;
    AllerPrefix(slots, d, days);
  }

  /** Matchday `days` comes after the fixtures of the days before it. */
  lemma AllerStep(slots: seq<Slot>, days: nat, prev: nat)
    requires |slots| >= 2 && 1 <= days <= |slots| - 1 && prev == days - 1
    ensures AllerFixtures(slots, days) == AllerFixtures(slots, prev) + Day(slots, days)
  {
  }

  /** Later matchdays only add fixtures after the earlier ones. */
  lemma {:induction false} AllerPrefix(slots: seq<Slot>, d: nat, days: nat)
    requires |slots| >= 2 && d <= days <= |slots| - 1
    ensures AllerFixtures(slots, d) <= AllerFixtures(slots, days)
  {
    if d < days {
      var prev := days - 1;
      AllerPrefix(slots, d, prev);
      AllerStep(slots, days, prev);
    }
  }

  /** Each pairing without a bye is among its matchday's fixtures. */
  lemma DayHas(sched: seq<Slot>, day: nat, j: nat, x: Match)
    requires PairedAt(sched, day, j, x)
    ensures x in DayFixtures(sched, day, |sched| / 2)
  {
    DayMembers(sched, day, |sched| / 2, x);
  }

  // ---------------------------------------------------------------------------
  // Who plays whom
  // ---------------------------------------------------------------------------

  /** x is a meeting of a and b, whoever is at home. */
  predicate Meets(x: Match, a: TeamId, b: TeamId)
  {
    (x.home == a && x.away == b) || (x.home == b && x.away == a)
  }

  predicate SamePair(x: Match, y: Match)
  {
    Meets(y, x.home, x.away)
  }

  /** x and y have no team in common. */
  predicate Disjoint(x: Match, y: Match)
  {
    x.home != y.home && x.home != y.away && x.away != y.home && x.away != y.away
  }

  /** No two fixtures of the list bring together the same two teams. */
  predicate PairsUnique(ms: seq<Match>)
  {
    forall k1, k2 :: 0 <= k1 < k2 < |ms| ==> !SamePair(ms[k1], ms[k2])
  }

  /** Within one matchday no team appears twice. */
  predicate NoTeamTwicePerDay(ms: seq<Match>)
  {
    forall k1, k2 :: 0 <= k1 < k2 < |ms| && ms[k1].matchday == ms[k2].matchday ==>
      Disjoint(ms[k1], ms[k2])
  }

  /** No team appears in two fixtures of the list. */
  predicate AllDisjoint(ms: seq<Match>)
  {
    forall k1, k2 :: 0 <= k1 < k2 < |ms| ==> Disjoint(ms[k1], ms[k2])
  }

  /** Two pairings of one slot list with distinct entries share no team. */
  lemma PairingsDisjoint(sched: seq<Slot>, day: nat, j1: nat, j2: nat, x: Match, y: Match)
    requires Distinct(sched) && j1 != j2
    requires PairedAt(sched, day, j1, x) && PairedAt(sched, day, j2, y)
    ensures Disjoint(x, y)
  {
    var n := |sched|;
    assert sched[j1] != sched[j2] && sched[j1] != sched[n - 1 - j2];
    assert sched[n - 1 - j1] != sched[j2] && sched[n - 1 - j1] != sched[n - 1 - j2];
  }

  /** Within the fixtures of one slot list no team appears twice. */
  lemma {:induction false} DayDisjoint(sched: seq<Slot>, day: nat, i: nat)
    requires Distinct(sched) && i <= |sched| / 2
    ensures AllDisjoint(DayFixtures(sched, day, i))
  {
    if i > 0 {
      DayDisjoint(sched, day, i - 1);
      var a, p := DayFixtures(sched, day, i - 1), Pairing(sched, day, i - 1, |sched| - i);
      var ms := a + p;
      forall k1, k2 | 0 <= k1 < k2 < |ms|
        ensures Disjoint(ms[k1], ms[k2])
      {
        if k2 >= |a| {
          assert ms[k2] in p && PairedAt(sched, day, i - 1, ms[k2]);
          assert ms[k1] == a[k1];
          DayMembers(sched, day, i - 1, ms[k1]);
          var j1: nat :| j1 < i - 1 && PairedAt(sched, day, j1, ms[k1]);
          PairingsDisjoint(sched, day, j1, i - 1, ms[k1], ms[k2]);
        } else {
          assert ms[k1] == a[k1] && ms[k2] == a[k2];
        }
      }
    }
  }

  // ---------------------------------------------------------------------------
  // The first phase over a slot list
  // ---------------------------------------------------------------------------

  /** A pairing of a slot list with distinct entries opposes two different teams of that list. */
  lemma PairedShape(sched: seq<Slot>, day: nat, j: nat, x: Match)
    requires Distinct(sched) && PairedAt(sched, day, j, x)
    ensures x.home != x.away && Some(x.home) in sched && Some(x.away) in sched
  {
    assert sched[j] != sched[|sched| - 1 - j];
  }

  /** A slot value present after some turns was present at the start. */
  lemma StillThere(slots: seq<Slot>, r: nat, v: Slot)
    requires |slots| >= 2 && r < |slots| - 1 && v in Rotated(slots, r)
    ensures v in slots
  {
    RotationInvariant(slots, r);
    assert v in multiset(Rotated(slots, r));
  }

  /** Every fixture lies on a matchday 1..days, opposes two different teams of
      the slot list, and is an unplayed first-phase match; so no bye is ever scheduled. */
  lemma FixtureShape(slots: seq<Slot>, days: nat, x: Match)
    requires |slots| >= 2 && days <= |slots| - 1 && Distinct(slots)
    requires x in AllerFixtures(slots, days)
    ensures 1 <= x.matchday <= days && x.phase == Aller && !x.played
    ensures x.home != x.away && Some(x.home) in slots && Some(x.away) in slots
  {
    var d, j := Origin(slots, days, x);
    RotatedDistinct(slots, d - 1);
    PairedShape(Rotated(slots, d - 1), d, j, x);
    StillThere(slots, d - 1, Some(x.home));
    StillThere(slots, d - 1, Some(x.away));
  }

  /** On each matchday no team plays twice. */
  lemma {:induction false} AllerNoTeamTwicePerDay(slots: seq<Slot>, days: nat)
    requires |slots| >= 2 && days <= |slots| - 1 && Distinct(slots)
    ensures NoTeamTwicePerDay(AllerFixtures(slots, days))
  {
    if days > 0 {
      AllerNoTeamTwicePerDay(slots, days - 1);
      var a, b := AllerFixtures(slots, days - 1), Day(slots, days);
      var ms := a + b;
      RotatedDistinct(slots, days - 1);
      DayDisjoint(Rotated(slots, days - 1), days, |slots| / 2);
      forall k1, k2 | 0 <= k1 < k2 < |ms| && ms[k1].matchday == ms[k2].matchday
        ensures Disjoint(ms[k1], ms[k2])
      {
        if k2 < |a| {
          assert ms[k1] == a[k1] && ms[k2] == a[k2];
        } else if k1 >= |a| {
          assert ms[k1] == b[k1 - |a|] && ms[k2] == b[k2 - |a|];
        } else {
          assert ms[k1] == a[k1] && ms[k2] == b[k2 - |a|];
          FixtureShape(slots, days - 1, ms[k1]);
          var j := DayOrigin(Rotated(slots, days - 1), days, ms[k2]);
          assert false;
        }
      }
    }
  }

  /** The round and pairing of a first-phase fixture, read back on the starting slots. */
  lemma SlotOrigin(slots: seq<Slot>, days: nat, x: Match) returns (r: nat, j: nat)
    requires |slots| >= 2 && days <= |slots| - 1 && x in AllerFixtures(slots, days)
    ensures r < days && j < |slots| / 2 && x.matchday == r + 1
    ensures slots[Pos(|slots|, r, j)] == Some(x.home)
    ensures slots[Pos(|slots|, r, |slots| - 1 - j)] == Some(x.away)
  {
    var d;
    d, j := Origin(slots, days, x);
    r := d - 1;
    RotatedAt(slots, r, j);
    RotatedAt(slots, r, |slots| - 1 - j);
  }

  /** Two fixtures between the same two teams lie on the same matchday. */
  lemma SamePairSameDay(slots: seq<Slot>, days: nat, x: Match, y: Match)
    requires |slots| >= 2 && |slots| % 2 == 0 && days <= |slots| - 1 && Distinct(slots)
    requires x in AllerFixtures(slots, days) && y in AllerFixtures(slots, days)
    requires SamePair(x, y)
    ensures x.matchday == y.matchday
  {
    var r1, j1 := SlotOrigin(slots, days, x);
    var r2, j2 := SlotOrigin(slots, days, y);
    SameTeamsSameRound(slots, r1, j1, r2, j2);
  }

  /** Two pairings of the circle that join the same two slot values are the
      same pairing of the same round. */
  lemma SameTeamsSameRound(slots: seq<Slot>, r1: nat, j1: nat, r2: nat, j2: nat)
    requires |slots| >= 2 && |slots| % 2 == 0 && Distinct(slots)
    requires r1 < |slots| - 1 && r2 < |slots| - 1 && j1 < |slots| / 2 && j2 < |slots| / 2
    requires var n := |slots|;
      var p1, q1, p2, q2 := Pos(n, r1, j1), Pos(n, r1, n - 1 - j1), Pos(n, r2, j2), Pos(n, r2, n - 1 - j2);
      (slots[p1] == slots[p2] && slots[q1] == slots[q2]) || (slots[p1] == slots[q2] && slots[q1] == slots[p2])
    ensures r1 == r2
  {
    var n := |slots|;
    var p1, q1 := Pos(n, r1, j1), Pos(n, r1, n - 1 - j1);
    var p2, q2 := Pos(n, r2, j2), Pos(n, r2, n - 1 - j2);
    if slots[p1] == slots[p2] && slots[q1] == slots[q2] {
      SameSlot(slots, p1, p2);
      SameSlot(slots, q1, q2);
    } else {
      SameSlot(slots, p1, q2);
      SameSlot(slots, q1, p2);
    }
    SameSlotsSameRound(n, r1, j1, r2, j2);
  }

  /** In a list without repeats, a value sits at one position only. */
  lemma SameSlot(slots: seq<Slot>, p: nat, q: nat)
    requires Distinct(slots) && p < |slots| && q < |slots| && slots[p] == slots[q]
    ensures p == q
  {
    if p < q || q < p {
      assert false;
    }
  }

  /** No two first-phase fixtures bring together the same two teams. */
  lemma AllerPairsUnique(slots: seq<Slot>, days: nat)
    requires |slots| >= 2 && |slots| % 2 == 0 && days <= |slots| - 1 && Distinct(slots)
    ensures PairsUnique(AllerFixtures(slots, days))
  {
    var ms := AllerFixtures(slots, days);
    AllerNoTeamTwicePerDay(slots, days);
    forall k1, k2 | 0 <= k1 < k2 < |ms|
      ensures !SamePair(ms[k1], ms[k2])
    {
      if SamePair(ms[k1], ms[k2]) {
        SamePairSameDay(slots, days, ms[k1], ms[k2]);
        assert false;
      }
    }
  }

  /** Pairing j of round r is scheduled on matchday r+1 unless it involves the bye. */
  lemma Scheduled(slots: seq<Slot>, days: nat, r: nat, j: nat, home: TeamId, away: TeamId)
    requires |slots| >= 2 && days == |slots| - 1 && r < days && j < |slots| / 2
    requires slots[Pos(|slots|, r, j)] == Some(home) && slots[Pos(|slots|, r, |slots| - 1 - j)] == Some(away)
    ensures Match(home, away, r + 1, Aller, false) in AllerFixtures(slots, days)
  {
    var m := Match(home, away, r + 1, Aller, false);
    RotatedAt(slots, r, j);
    RotatedAt(slots, r, |slots| - 1 - j);
    assert PairedAt(Rotated(slots, r), r + 1, j, m);
    Placed(slots, days, r, j, m);
  }

  /** Any two teams of the slot list meet during the first phase. */
  lemma EverySlotPairMeets(slots: seq<Slot>, days: nat, ms: seq<Match>, x: nat, y: nat)
    requires |slots| >= 2 && |slots| % 2 == 0 && x < |slots| && y < |slots| && x != y && days == |slots| - 1
    requires ms == AllerFixtures(slots, days)
    requires slots[x].Some? && slots[y].Some?
    ensures exists k :: 0 <= k < |ms| && Meets(ms[k], slots[x].value, slots[y].value)
  {
    var n := |slots|;
    var r, j := MeetingRound(n, if x < y then x else y, if x < y then y else x);
    var home, away := slots[Pos(n, r, j)].value, slots[Pos(n, r, n - 1 - j)].value;
    Scheduled(slots, days, r, j, home, away);
    var m := Match(home, away, r + 1, Aller, false);
    var k :| 0 <= k < |ms| && ms[k] == m;
    assert Meets(ms[k], slots[x].value, slots[y].value);
  }

  // ---------------------------------------------------------------------------
  // How many first-phase fixtures there are
  // ---------------------------------------------------------------------------

  /** How many of the first i pairings of `sched` involve the bye. */
  function ByePairings(sched: seq<Slot>, i: nat): nat
    requires i <= |sched| / 2
  {
    if i == 0 then 0
    else ByePairings(sched, i - 1) + (if sched[i - 1].None? || sched[|sched| - i].None? then 1 else 0)
  }

  lemma {:induction false} DayCount(sched: seq<Slot>, day: nat, i: nat)
    requires i <= |sched| / 2
    ensures |DayFixtures(sched, day, i)| + ByePairings(sched, i) == i
  {
    if i > 0 {
      DayCount(sched, day, i - 1);
    }
  }

  /** With one bye, at position q, exactly one pairing involves it once both ends are covered. */
  lemma {:induction false} ByeCount(sched: seq<Slot>, i: nat, q: nat)
    requires Distinct(sched) && i <= |sched| / 2 && q < |sched| && sched[q].None?
    ensures ByePairings(sched, i) == if q < i || q >= |sched| - i then 1 else 0
  {
    if i > 0 {
      ByeCount(sched, i - 1, q);
      var n := |sched|;
      if sched[i - 1].None? {
        assert i - 1 == q;
      }
      if sched[n - i].None? {
        assert n - i == q;
      }
    }
  }

  lemma {:induction false} NoByeCount(sched: seq<Slot>, i: nat)
    requires None !in sched && i <= |sched| / 2
    ensures ByePairings(sched, i) == 0
  {
    if i > 0 {
      NoByeCount(sched, i - 1);
      assert sched[i - 1] in sched && sched[|sched| - i] in sched;
    }
  }

  /** One fixture fewer than n/2 a matchday when there is a bye. */
  function PerDay(slots: seq<Slot>): nat
    requires |slots| >= 2
  {
    |slots| / 2 - (if None in slots then 1 else 0)
  }

  /** The bye is present after some turns exactly when it was present at the start. */
  lemma ByeStays(slots: seq<Slot>, r: nat)
    requires |slots| >= 2 && r < |slots| - 1
    ensures None in Rotated(slots, r) <==> None in slots
  {
    RotationInvariant(slots, r);
    assert None in Rotated(slots, r) <==> None in multiset(Rotated(slots, r));
  }

  /** Over a whole matchday, a bye costs exactly one pairing. */
  lemma ByePerDay(sched: seq<Slot>)
    requires Distinct(sched) && |sched| % 2 == 0
    ensures ByePairings(sched, |sched| / 2) == if None in sched then 1 else 0
  {
    if None in sched {
      var q :| 0 <= q < |sched| && sched[q] == None;
      ByeCount(sched, |sched| / 2, q);
    } else {
      NoByeCount(sched, |sched| / 2);
    }
  }

  lemma DayLength(slots: seq<Slot>, d: nat)
    requires |slots| >= 2 && |slots| % 2 == 0 && 1 <= d <= |slots| - 1 && Distinct(slots)
    ensures |Day(slots, d)| == PerDay(slots)
  {
    var sched := Rotated(slots, d - 1);
    RotatedDistinct(slots, d - 1);
    ByeStays(slots, d - 1);
    DayCount(sched, d, |slots| / 2);
    ByePerDay(sched);
  }

  lemma {:induction false} AllerCount(slots: seq<Slot>, days: nat)
    requires |slots| >= 2 && |slots| % 2 == 0 && days <= |slots| - 1 && Distinct(slots)
    ensures |AllerFixtures(slots, days)| == days * PerDay(slots)
  {
    if days > 0 {
      AllerCount(slots, days - 1);
      DayLength(slots, days);
      assert days * PerDay(slots) == (days - 1) * PerDay(slots) + PerDay(slots);
    }
  }

  // ---------------------------------------------------------------------------
  // The first phase for a list of teams
  // ---------------------------------------------------------------------------

  lemma PadDistinct(teams: seq<TeamId>)
    requires NoDuplicates(teams)
    ensures Distinct(Pad(teams))
  {
  }

  /** The padded list holds a bye exactly when the team count is odd, and nothing but the teams besides. */
  lemma PadContents(teams: seq<TeamId>)
    ensures None in Pad(teams) <==> |teams| % 2 == 1
    ensures forall v :: Some(v) in Pad(teams) ==> v in teams
  {
    var s := Pad(teams);
    forall v | Some(v) in s
      ensures v in teams
    {
      var p :| 0 <= p < |s| && s[p] == Some(v);
      assert p < |teams|;
    }
  }

  /** One first-phase match, read back on the team list. */
  lemma AllerMatchShape(teams: seq<TeamId>, x: Match)
    requires |teams| >= 2 && NoDuplicates(teams) && x in AllerPhase(teams)
    ensures 1 <= x.matchday <= |Pad(teams)| - 1 && x.phase == Aller && !x.played
    ensures x.home != x.away && x.home in teams && x.away in teams
  {
    var slots := Pad(teams);
    PadDistinct(teams);
    PadContents(teams);
    FixtureShape(slots, |slots| - 1, x);
  }

  /** Every first-phase match opposes two different active teams on a matchday
      1..n-1, where n is the team count padded to even; no bye match is created,
      and no team plays twice on one matchday. */
  lemma AllerShape(teams: seq<TeamId>, aller: seq<Match>)
    requires |teams| >= 2 && NoDuplicates(teams) && aller == AllerPhase(teams)
    ensures forall k :: 0 <= k < |aller| ==>
      && 1 <= aller[k].matchday <= |Pad(teams)| - 1
      && aller[k].phase == Aller && !aller[k].played
      && aller[k].home != aller[k].away && aller[k].home in teams && aller[k].away in teams
    ensures NoTeamTwicePerDay(aller)
  {
    var slots := Pad(teams);
    PadDistinct(teams);
    AllerNoTeamTwicePerDay(slots, |slots| - 1);
    forall k | 0 <= k < |aller|
      ensures 1 <= aller[k].matchday <= |slots| - 1 && aller[k].phase == Aller && !aller[k].played
      ensures aller[k].home != aller[k].away && aller[k].home in teams && aller[k].away in teams
    {
      AllerMatchShape(teams, aller[k]);
    }
  }

  /** No two fixtures of the first phase bring together the same two teams. */
  lemma AllerPhaseUnique(teams: seq<TeamId>, aller: seq<Match>)
    requires |teams| >= 2 && NoDuplicates(teams) && aller == AllerPhase(teams)
    ensures PairsUnique(aller)
  {
    PadDistinct(teams);
    AllerPairsUnique(Pad(teams), |Pad(teams)| - 1);
  }

  /** Every two distinct active teams meet exactly once in the first phase. */
  lemma AllerEveryPairOnce(teams: seq<TeamId>, aller: seq<Match>, a: TeamId, b: TeamId)
    requires |teams| >= 2 && NoDuplicates(teams) && aller == AllerPhase(teams)
    requires a in teams && b in teams && a != b
    ensures exists k :: 0 <= k < |aller| && Meets(aller[k], a, b)
    ensures forall k1, k2 :: 0 <= k1 < k2 < |aller| && Meets(aller[k1], a, b) ==> !Meets(aller[k2], a, b)
  {
    AllerPairMeets(teams, aller, a, b);
    AllerPhaseUnique(teams, aller);
    MeetsAtMostOnce(aller, a, b);
  }

  /** Two distinct active teams meet somewhere in the first phase. */
  lemma AllerPairMeets(teams: seq<TeamId>, aller: seq<Match>, a: TeamId, b: TeamId)
    requires |teams| >= 2 && NoDuplicates(teams) && aller == AllerPhase(teams)
    requires a in teams && b in teams && a != b
    ensures exists k :: 0 <= k < |aller| && Meets(aller[k], a, b)
  {
    var slots := Pad(teams);
    var ia :| 0 <= ia < |teams| && teams[ia] == a;
    var ib :| 0 <= ib < |teams| && teams[ib] == b;
    EverySlotPairMeets(slots, |slots| - 1, aller, ia, ib);
  }

  /** In a list with no pair twice, two teams meet at most once. */
  lemma MeetsAtMostOnce(ms: seq<Match>, a: TeamId, b: TeamId)
    requires PairsUnique(ms)
    ensures forall k1, k2 :: 0 <= k1 < k2 < |ms| && Meets(ms[k1], a, b) ==> !Meets(ms[k2], a, b)
  {
    forall k1, k2 | 0 <= k1 < k2 < |ms| && Meets(ms[k1], a, b)
      ensures !Meets(ms[k2], a, b)
    {
      assert !SamePair(ms[k1], ms[k2]);
    }
  }

  /** The arithmetic of the match count: (T-1) matchdays of T/2 matches for even
      T, T matchdays of (T-1)/2 matches for odd T. */
  lemma PairCount(t: nat, days: nat, per: nat)
    requires t % 2 == 0 ==> days == t - 1 && per == t / 2
    requires t % 2 == 1 ==> days == t && per == (t - 1) / 2
    ensures 2 * (days * per) == t * (t - 1)
  {
    var h := t / 2;
    if t % 2 == 0 {
      assert t == 2 * h;
      assert 2 * (days * per) == days * (2 * h);
    } else {
      assert t - 1 == 2 * h;
      assert 2 * (days * per) == days * (2 * h);
    }
  }

  /** The first phase has T(T-1)/2 matches for T active teams. */
  lemma AllerLength(teams: seq<TeamId>)
    requires |teams| >= 2 && NoDuplicates(teams)
    ensures 2 * |AllerPhase(teams)| == |teams| * (|teams| - 1)
  {
    var slots := Pad(teams);
    PadDistinct(teams);
    PadContents(teams);
    AllerCount(slots, |slots| - 1);
    PairCount(|teams|, |slots| - 1, PerDay(slots));
  }

  // ---------------------------------------------------------------------------
  // The return phase and the whole calendar
  // ---------------------------------------------------------------------------

  /** Each first-phase match has exactly one return match: the same two teams,
      venues swapped, same matchday. */
  lemma ReturnMirrorsOnce(aller: seq<Match>)
    requires PairsUnique(aller)
    ensures |ReturnPhase(aller)| == |aller|
    ensures forall k, k' :: 0 <= k < |aller| && 0 <= k' < |aller| ==>
      (ReturnPhase(aller)[k'] == Mirror(aller[k]) <==> k' == k)
  {
    var retour := ReturnPhase(aller);
    forall k, k' | 0 <= k < |aller| && 0 <= k' < |aller| && retour[k'] == Mirror(aller[k])
      ensures k' == k
    {
      assert SamePair(aller[k], aller[k']);
    }
  }

  /** The calendar the view stores: both phases. */
  function Calendar(teams: seq<TeamId>): seq<Match>
    requires |teams| >= 2
  {
    AllerPhase(teams) + ReturnPhase(AllerPhase(teams))
  }

  /** Both phases, as generate_calendar creates them: the first phase, then
      its mirror. */
  method CreateCalendar(order: seq<TeamId>) returns (ms: seq<Match>)
    requires |order| >= 2
    ensures ms == Calendar(order)
  {
    var aller := GenerateAller(order);
    var retour := GenerateRetour(aller);
    ms := aller + retour;
  }

  /** The calendar respects the Match table's constraints: matchday at least 1
      and no two rows with the same home team, away team and phase. */
  lemma CalendarValid(teams: seq<TeamId>)
    requires |teams| >= 2 && NoDuplicates(teams)
    ensures MatchTableValid(Calendar(teams))
    ensures |Calendar(teams)| == 2 * |AllerPhase(teams)|
  {
    var aller := AllerPhase(teams);
    AllerShape(teams, aller);
    AllerPhaseUnique(teams, aller);
    var retour := ReturnPhase(aller);
    BothPhasesValid(aller, retour);
  }

  /** A first phase on matchdays from 1 with no pair twice, followed by its
      mirror, fits the Match table. */
  lemma BothPhasesValid(aller: seq<Match>, retour: seq<Match>)
    requires forall k :: 0 <= k < |aller| ==> aller[k].matchday >= 1 && aller[k].phase == Aller
    requires PairsUnique(aller)
    requires |retour| == |aller| && forall k :: 0 <= k < |aller| ==> retour[k] == Mirror(aller[k])
    ensures MatchTableValid(aller + retour)
  {
    var cal := aller + retour;
    forall k | 0 <= k < |cal|
      ensures cal[k].matchday >= 1
    {
      if k < |aller| {
        assert cal[k] == aller[k];
      } else {
        assert cal[k] == retour[k - |aller|] == Mirror(aller[k - |aller|]);
      }
    }
    forall k1, k2 | 0 <= k1 < k2 < |cal|
      ensures !(cal[k1].home == cal[k2].home && cal[k1].away == cal[k2].away && cal[k1].phase == cal[k2].phase)
    {
      if k2 < |aller| {
        assert cal[k1] == aller[k1] && cal[k2] == aller[k2];
        assert !SamePair(aller[k1], aller[k2]);
      } else if k1 >= |aller| {
        var m1, m2 := k1 - |aller|, k2 - |aller|;
        assert cal[k1] == retour[m1] == Mirror(aller[m1]);
        assert cal[k2] == retour[m2] == Mirror(aller[m2]);
        assert !SamePair(aller[m1], aller[m2]);
      } else {
        assert cal[k1] == aller[k1] && cal[k2] == retour[k2 - |aller|];
      }
    }
  }

  /** Double round robin: each active team hosts each other active team exactly once. */
  lemma EachHostsEachOnce(teams: seq<TeamId>, a: TeamId, b: TeamId)
    requires |teams| >= 2 && NoDuplicates(teams)
    requires a in teams && b in teams && a != b
    ensures exists k :: 0 <= k < |Calendar(teams)| && Calendar(teams)[k].home == a && Calendar(teams)[k].away == b
    ensures forall k1, k2 :: 0 <= k1 < k2 < |Calendar(teams)| && Calendar(teams)[k1].home == a && Calendar(teams)[k1].away == b
              ==> !(Calendar(teams)[k2].home == a && Calendar(teams)[k2].away == b)
  {
    var aller := AllerPhase(teams);
    AllerEveryPairOnce(teams, aller, a, b);
    AllerPhaseUnique(teams, aller);
    var retour := ReturnPhase(aller);
    MirrorHostsOnce(aller, retour, Calendar(teams), a, b);
  }

  /** When a and b meet once in the first phase, the two phases together have
      exactly one match hosted by a against b. */
  lemma MirrorHostsOnce(aller: seq<Match>, retour: seq<Match>, cal: seq<Match>, a: TeamId, b: TeamId)
    requires PairsUnique(aller) && a != b && cal == aller + retour
    requires |retour| == |aller| && forall k :: 0 <= k < |aller| ==> retour[k] == Mirror(aller[k])
    requires exists k :: 0 <= k < |aller| && Meets(aller[k], a, b)
    ensures exists k :: 0 <= k < |cal| && cal[k].home == a && cal[k].away == b
    ensures forall k1, k2 :: 0 <= k1 < k2 < |cal| && cal[k1].home == a && cal[k1].away == b
              ==> !(cal[k2].home == a && cal[k2].away == b)
  {
    var k :| 0 <= k < |aller| && Meets(aller[k], a, b);
    if aller[k].home == a {
      assert cal[k] == aller[k];
    } else {
      assert cal[|aller| + k] == Mirror(aller[k]);
    }
    forall k1, k2 | 0 <= k1 < k2 < |cal| && cal[k1].home == a && cal[k1].away == b
      ensures !(cal[k2].home == a && cal[k2].away == b)
    {
      if k2 < |aller| {
        assert !SamePair(aller[k1], aller[k2]);
      } else if k1 >= |aller| {
        assert !SamePair(aller[k1 - |aller|], aller[k2 - |aller|]);
      } else {
        assert cal[k2] == Mirror(aller[k2 - |aller|]);
        if k1 != k2 - |aller| {
          assert k1 < k2 - |aller| ==> !SamePair(aller[k1], aller[k2 - |aller|]);
          assert k2 - |aller| < k1 ==> !SamePair(aller[k2 - |aller|], aller[k1]);
        }
      }
    }
  }
}
