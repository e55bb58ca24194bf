# GOMA-Efootball League — the competition engine in Dafny

This project models the competition engine of the GOMA-Efootball League
web application, a Django site that runs one football league. The model
covers:

- the double round-robin calendar generator (the circle method, then a mirrored return phase);
- the standings recount (`Standing.calculate`) and the table recalculation
  that the result signals trigger, with the ranking by points, then goal
  difference, then goals scored;
- the playoff bracket: top-four seeding, the two-legged semifinal decision,
  and advancement to the final and the third-place match;
- the winners of a single match and of a playoff match;
- the form validators, the administrator access check, the integer template
  filters and the "recent form" letters of a team page.

The database is one `class LeagueStore` whose fields are the five tables as
sequences. The views and signal receivers that change the tables are methods
of that class. Each method is proved against a specification function of
the old state: `Recalculated`, `Calendar`, `TopFour` with `Seeded`, and
`Advanced`. The properties the league promises are lemmas about those
functions.

Modules, one file each:

| module | file | what |
|---|---|---|
| `Wrappers` | wrappers.dfy | `Option`, `Outcome` |
| `SeqFacts` | seqfacts.dfy | two multiset counting facts |
| `Models` | models.dfy | the records, `Result.winner`, `PlayoffMatch.winner`, `Standing.calculate` as a function |
| `Schedule` | schedule.dfy | the circle method and the return phase |
| `Ranking` | ranking.dfy | the ranking order and the 1-based positions |
| `Standings` | standings.dfy | `recalculate_all_standings` as a function, with `calculate` and the position loop as methods |
| `Playoffs` | playoffs.dfy | seeding, `_determine_semi_winner`, bracket advancement |
| `Forms` | forms.dfy | `clean_name`, `clean_username`, `clean`, `PlayoffResultForm.__init__` |
| `Decorators` | decorators.dfy | the decision inside `admin_required` |
| `LeagueTags` | league_tags.dfy | `subtract`, `percentage`, `get_badge_class`, with Python's `int()` of a string |
| `RecentForm` | recent_form.dfy | the V/N/D strip of the team page |
| `Store` | store.dfy | `LeagueStore` and the operations that change it |

Where the code and the written description of the application differ, the
model follows the code:

- `generate_calendar` deletes every match and result before it checks that
  there are two active teams. A refused generation therefore still empties
  both tables. `Store.LeagueStore.GenerateCalendar` says so.
- Standing rows of inactive teams are not recounted, but they are still
  numbered with the others (league/signals.py:17-28).
- `get_badge_class` gives 'bg-success' to every position up to 4 other than
  1, 2 and 3. That includes 0, the default of a row that has not been
  numbered yet.

## Model

| member | source | states |
|---|---|---|
| Models.PlayoffWinnerIsParticipant | league/models.py:368-379 | when the recorded penalty winner is one of the two teams, a playoff match's winner, if any, is its home or its away team |
| Models.PlayoffWinnerWithoutShootout | league/models.py:368-379 | a played playoff match without a recorded shoot-out winner has the winner a league result with the same scores has: home on a higher home score, away on a higher away score, none on a draw |
| Models.WinnerAgreesWithStandings | league/models.py:198-205 | `Result.winner` is the home team exactly when the home row gains a win, the away team exactly when the away row gains a win, and None exactly when the game is a draw |
| Models.RoleTally | league/models.py:257-282 | in each pass over the results, every counted result adds one to played and one to exactly one of won, drawn and lost |
| Models.TeamStats | league/models.py:284-286 | a recounted row has played = won + drawn + lost, points = 3·won + drawn, and goal difference = goals for − goals against |
| Models.RoleTallyAppend | league/models.py:257-282 | counting over two lists of results one after the other gives the sum of the two counts |
| Models.TeamTallyAppend | league/models.py:251-282 | the same for both passes together |
| Models.TeamStatsOrderFree | league/models.py:251-282 | the recount does not depend on the order of the results |
| Models.DeletionRetracts | league/models.py:243-282 | since the counters are reset first, recounting without one result removes exactly that result's contribution |
| Models.UnvalidatedCountsNothing | league/models.py:253-272 | an unvalidated result adds nothing to any team's counters |
| Models.UnvalidatedIgnored | league/models.py:253-272 | adding or removing an unvalidated result leaves every recounted row unchanged |
| Models.ResultMirror | league/models.py:257-282 | one validated result between two teams gives the two rows mirror images: a win for one is a defeat for the other, goals for one side are goals against the other, and the goal differences are opposite |
| Schedule.Pad | league/views.py:478-480 | the padded list has even length, keeps the teams in order, and ends with one bye exactly when the team count is odd |
| Schedule.PadDistinct | league/views.py:478-480 | distinct teams give a padded list without repeats |
| Schedule.PadContents | league/views.py:478-480 | the padded list holds a bye exactly when the team count is odd, and no team that was not in the list |
| Schedule.RotateAt | league/views.py:502 | one rotation keeps slot 0, moves the last slot to slot 1 and shifts every other slot up by one |
| Schedule.RotateStep | league/views.py:502 | the closed-form schedule after r+1 rotations is one rotation of the schedule after r |
| Schedule.RotatePermutes | league/views.py:502 | a rotation is a permutation of the schedule |
| Schedule.RotationInvariant | league/views.py:502 | after any number of rotations slot 0 still holds the first entry, and the schedule is a permutation of the padded list |
| Schedule.RotatedDistinct | league/views.py:502 | a schedule without repeats keeps none after rotating |
| Schedule.PlayMatchday | league/views.py:488-499 | one matchday appends, in slot order, the match of slot i against slot n−1−i for every i < n/2 where neither slot is the bye |
| Schedule.Circle | league/views.py:486-502 | the matchday loop creates the fixtures of matchdays 1 to n−1, rotating the schedule after each |
| Schedule.GenerateAller | league/views.py:478-502 | the first phase created for a list of teams is `AllerPhase` of that list |
| Schedule.DayMembers | league/views.py:488-499 | a match belongs to a matchday exactly when it is the pairing of some slot i < n/2 with slot n−1−i, both holding teams |
| Schedule.Scheduled | league/views.py:487-499 | after r rotations, the pairing of slot j with slot n−1−j is created as a first-phase match on matchday r+1 when both slots hold teams |
| Schedule.FixtureShape | league/views.py:487-499 | every first-phase match has a matchday in 1..n−1, the first phase, is unplayed, and opposes two different teams of the list |
| Schedule.AllerNoTeamTwicePerDay | league/views.py:487-499 | within one matchday no team plays twice |
| Schedule.SamePairSameDay | league/views.py:487-502 | two first-phase matches between the same two teams fall on the same matchday |
| Schedule.AllerPairsUnique | league/views.py:487-502 | no two first-phase matches oppose the same two teams |
| Schedule.MeetingRound | league/views.py:487-502 | any two slots are paired in some round of the rotation |
| Schedule.SameSlotsSameRound | league/views.py:487-502 | two slots are paired in at most one round |
| Schedule.EverySlotPairMeets | league/views.py:487-502 | the first phase has a match between the teams of any two slots that both hold teams |
| Schedule.AllerShape | league/views.py:478-502 | every first-phase match has a matchday in 1..n−1 and opposes two different listed teams, and no team plays twice on a matchday |
| Schedule.AllerMatchShape | league/views.py:478-499 | any one first-phase match has a matchday in 1..n−1, the first phase, is unplayed, and opposes two different teams of the list |
| Schedule.AllerPhaseUnique | league/views.py:478-502 | for distinct teams, no two first-phase matches oppose the same two teams |
| Schedule.AllerPairMeets | league/views.py:478-502 | any two distinct listed teams meet somewhere in the first phase |
| Schedule.AllerEveryPairOnce | league/views.py:478-502 | every unordered pair of distinct teams meets exactly once in the first phase |
| Schedule.AllerLength | league/views.py:478-502 | m teams give m(m−1)/2 first-phase matches |
| Schedule.AllerCount | league/views.py:482-499 | the first phase has (number of matchdays) × (matches per matchday) matches |
| Schedule.DayLength | league/views.py:483-499 | each matchday has n/2 matches, one fewer when the list was padded with a bye |
| Schedule.ByePerDay | league/views.py:492-493 | exactly one pairing per matchday is dropped when there is a bye, none otherwise |
| Schedule.ReturnPhase | league/views.py:505-512 | the return phase has one match per first-phase match, in the same order, with home and away swapped, the same matchday and the return phase |
| Schedule.GenerateRetour | league/views.py:505-512 | the return-phase loop creates `ReturnPhase` of the first phase |
| Schedule.ReturnMirrorsOnce | league/views.py:505-512 | each first-phase match (h, a, d) has exactly one return match, and it is (a, h, d) |
| Schedule.CreateCalendar | league/views.py:486-512 | the two phases together create `Calendar` of the team order: the first phase followed by its mirror |
| Schedule.BothPhasesValid | league/models.py:115-144 | any first phase on matchdays from 1 with no pair twice, followed by its mirror, satisfies the table constraints |
| Schedule.CalendarValid | league/models.py:115-144 | the generated calendar satisfies the table constraints: every matchday ≥ 1, no two matches with the same home team, away team and phase; and it has twice as many matches as the first phase |
| Schedule.EachHostsEachOnce | league/views.py:478-512 | over the whole calendar each team hosts each other team exactly once |
| Schedule.MirrorHostsOnce | league/views.py:505-512 | when two teams meet exactly once in the first phase, the two phases together have exactly one match hosted by the first against the second |
| Ranking.AheadOrder | league/signals.py:22-24 | "ahead of" is a strict weak order, and two rows are tied exactly when points, goal difference and goals for are all equal |
| Ranking.Insert | league/signals.py:22-24 | inserting a row into a ranked list keeps it ranked and adds exactly that row |
| Ranking.RankOrder | league/signals.py:22-24 | the ordered table is a permutation of the rows in which no row is ahead of an earlier one |
| Ranking.RankOrderOfRanked | league/signals.py:22-24 | a table already in ranking order is left as it is |
| Ranking.Positioned | league/signals.py:25-28 | the k-th row gets position k+1 and is otherwise unchanged |
| Ranking.PositionedKeepsRanking | league/signals.py:25-28 | numbering keeps the ranking and the teams in place |
| Ranking.PositionedIdempotent | league/signals.py:25-28 | numbering twice is numbering once |
| Standings.ActiveIds | league/signals.py:17 | the ids recounted are exactly those of active teams |
| Standings.ActiveIdsDistinct | league/signals.py:17 | with team ids as keys, no active team is listed twice |
| Standings.NameBeforeTotal | league/models.py:81 | the name order of the Team table is a strict total order: never both ways, and one way for any two different names |
| Standings.NameBeforeTransitive | league/models.py:81 | the name order is transitive |
| Models.IndexOf | league/signals.py:18 | the lookup by id gives the first place of the id, or None exactly when the id does not occur |
| Standings.FindRow | league/signals.py:18 | the lookup finds the row of the team, or reports that no row has that team |
| Standings.WithRowSpec | league/signals.py:18 | get_or_create keeps every row, adds a zeroed row at the end only when the team had none, and leaves one row per team |
| Standings.FreshRows | league/views.py:522-524 | the recreated table has one zeroed, unnumbered row per active team, in team order |
| Standings.FreshRowsDistinct | league/views.py:522-524 | rows created for distinct active teams are one per team |
| Standings.RefreshSpec | league/signals.py:18-19 | one get_or_create and recount gives the team one row with its recounted stats, keeps every other row, and keeps one row per team |
| Standings.RefreshAllSpec | league/signals.py:17-19 | after the loop every active team has a row with its recounted stats, and the rows of other teams are exactly the old ones |
| Standings.PermutationDistinct | league/signals.py:22-28 | reordering the table keeps one row per team |
| Standings.RecalculatedRanked | league/signals.py:11-28 | the recalculated table has one row per team, is in ranking order, and numbers its rows 1..N |
| Standings.RecalculatedCoversActive | league/signals.py:17-19 | every active team has a row with its recounted stats |
| Standings.RecalculatedKeepsInactive | league/signals.py:22-28 | the row of a team that is not active keeps its stats, and only its position may change |
| Standings.RecalculatedAddsOnlyActive | league/signals.py:17-28 | every row of a team that is not active was already in the table |
| Standings.RefreshAllKeeps | league/models.py:243-249 | recounting rows that already hold the recounted stats changes nothing |
| Standings.RecalculatedIdempotent | league/models.py:243-249 | recalculating twice with the same results gives the same table as recalculating once |
| Standings.ZeroedRows | league/views.py:522-524 | the loop creates `FreshRows` of the ids it is given: one zeroed row per id, in that order |
| Standings.Calculate | league/models.py:238-287 | the two counting loops leave the row of the team with the stats `TeamStats` of the results, and change nothing else in it |
| Standings.CountHomeGames | league/models.py:253-266 | the home loop leaves the counters of the team's validated home games |
| Standings.CountAwayGames | league/models.py:268-282 | the away loop adds the counters of the team's validated away games to those of the home loop |
| Standings.CountHomeGame | league/models.py:257-266 | a validated home game adds one game played, its goals for and against, and one win, draw or defeat by the score; any other result adds nothing |
| Standings.CountAwayGame | league/models.py:273-282 | the same for a validated away game, read from the away side |
| Standings.AssignPositions | league/signals.py:25-28 | the loop numbers the ordered rows 1..N, and writes back exactly the rows whose position changes |
| Playoffs.TopFour | league/views.py:617-625 | the seeds are four teams |
| Playoffs.TopFourAreBest | league/views.py:617-625 | the seeds are teams of the table, and no other row is ahead of any of them |
| Playoffs.SeededWellFormed | league/views.py:627-655 | seeding pairs 1st with 4th and 2nd with 3rd over two legs with swapped venues, leaves the third-place and final rows without teams, plays nothing, and gives a well-formed bracket |
| Playoffs.SemiWinnerSides | league/views.py:741-775 | whenever a winner is returned, the winner and the loser are the two different teams of the tie |
| Playoffs.SemiWinnerByAggregate | league/views.py:749-760 | a strictly higher aggregate wins, and the other team loses |
| Playoffs.SemiUndecided | league/views.py:761-775 | the tie is undecided exactly when the aggregates are level, no penalty winner is recorded on leg 2, and the away goals are level |
| Playoffs.SemiLegOrderIrrelevant | league/views.py:749-775 | without shoot-outs, passing the legs in the other order gives the same outcome |
| Playoffs.SemiShootoutAgreesWithLeg | league/views.py:762-766 | on a level aggregate, a shoot-out recorded on leg 2 decides the tie for the winner of that leg |
| Playoffs.FirstOf | league/views.py:701-705 | the lookup gives the first row of the round (played, when asked), or reports that there is none |
| Playoffs.BracketRows | league/views.py:701-705 | in a well-formed bracket whose semifinal legs are played, each round's query finds that round's own row |
| Playoffs.QualifiedBoth | league/views.py:707-722 | the winners and the losers are collected together, and there are two of each exactly when both semifinals are decided |
| Playoffs.AdvancedWaitsForBoth | league/views.py:724-738 | until both semifinals are decided, the bracket is left as it is |
| Playoffs.AdvancedFills | league/views.py:724-738 | once both are decided, the final gets (winner 1, winner 2) and the third-place match gets (loser 1, loser 2), and no other row or field changes |
| Playoffs.SetTeamsKeepsOthers | league/views.py:726-738 | writing one round's teams keeps where the other rounds' rows are and which of them are played |
| Playoffs.SetTeamsWrites | league/views.py:726-738 | writing a round's teams changes only the two teams of that round's first row, and no other row |
| Playoffs.AdvancedKeepsSemis | league/views.py:695-738 | advancement changes no semifinal leg, and so no semifinal outcome |
| Playoffs.AdvancedIdempotent | league/views.py:695-738 | running the advancement again changes nothing |
| Playoffs.AdvancedWellFormed | league/views.py:695-738 | advancement keeps a bracket well formed |
| Playoffs.SeedsShareOut | league/views.py:707-738 | in a seeded bracket with both semifinals decided, each semifinal sends one of its teams to the final and the other to the third-place match |
| Forms.CleanName | league/forms.py:42-47 | a name is accepted, unchanged, exactly when it has at least two characters; otherwise the error is the too-short message |
| Forms.CleanUsername | league/forms.py:154-159 | a username is accepted exactly when no account holds it |
| Forms.CleanPasswords | league/forms.py:161-168 | the mismatch error is raised exactly when both passwords are non-empty and differ; otherwise the data passes through |
| Forms.TeamsAmong | league/forms.py:108-112 | the narrowed choices are exactly the teams of the table that are the match's home or away team |
| Forms.AllTeamIds | league/forms.py:105-106 | the default choices are exactly the teams of the table |
| Forms.PlayoffResultForm.constructor | league/forms.py:105-116 | for a stored match the choices are narrowed to its two teams; the field is optional either way |
| Forms.PenaltyChoicesAreTheMatchTeams | league/forms.py:108-116 | for a stored match between two listed teams, the form accepts exactly no winner, the home team or the away team |
| Forms.AcceptedWinnerIsOneOfTheTie | league/forms.py:108-116 | a penalty winner accepted for a second leg is one of the first leg's two teams |
| Decorators.AdminRequiredTable | league/decorators.py:16-33 | the four outcomes of the check: login exactly when not authenticated, home exactly when authenticated but not staff, password change exactly when staff with the flag set and another path, the view in every other case |
| Decorators.AnonymousAlwaysToLogin | league/decorators.py:17-19 | an unauthenticated user goes to the login page, whatever the other flags say |
| Decorators.ChangePasswordPageReachable | league/decorators.py:24-33 | a staff user always reaches the password change page |
| LeagueTags.ParseShow | league/templatetags/league_tags.py:34 | `int()` reads back every integer written in decimal, negative ones included |
| LeagueTags.ParseShowNat | league/templatetags/league_tags.py:34 | `int()` reads back the decimal digits of a natural number |
| LeagueTags.ParseShowNegative | league/templatetags/league_tags.py:34 | `int()` reads back a minus sign followed by the digits of a natural number m as −m |
| LeagueTags.ParseUnsigned | league/templatetags/league_tags.py:34 | `int()` reads a group of digits without a sign as the number it spells |
| LeagueTags.ParseMinus | league/templatetags/league_tags.py:34 | `int()` reads a minus sign followed by a group of digits as the negated number |
| LeagueTags.DigitsOfShowNat | league/templatetags/league_tags.py:34 | the digits of a natural number spell that number |
| LeagueTags.StripLeft | league/templatetags/league_tags.py:34 | `int()` drops the leading whitespace: what is left is a suffix of the text that does not start with whitespace, and all that was dropped is whitespace |
| LeagueTags.StripRight | league/templatetags/league_tags.py:34 | the same for the trailing whitespace: a prefix that does not end with whitespace |
| LeagueTags.Subtract | league/templatetags/league_tags.py:11-16 | the difference of the two converted values, or 0 when either conversion fails |
| LeagueTags.SubtractText | league/templatetags/league_tags.py:13-14 | numbers passed as text subtract like the numbers |
| LeagueTags.Percentage | league/templatetags/league_tags.py:20-27 | zero exactly when the total converts to 0 or a conversion fails; otherwise the ratio of the converted value to a non-zero total |
| LeagueTags.BadgesOfRanks | league/templatetags/league_tags.py:31-46 | gold exactly for rank 1, silver exactly for 2, bronze exactly for 3, green for every other position up to 4 (4, the default 0, negatives), dark from 5 on; a position written as text gets the same badge |
| LeagueTags.UnconvertibleIsPlain | league/templatetags/league_tags.py:33-46 | a position `int()` cannot convert gets the dark badge, and any other badge comes from a converted position up to 4 |
| LeagueTags.GoldClassOnlyForLeader | league/templatetags/league_tags.py:31-46 | the gold class is written exactly for position 1 |
| RecentForm.Letters | league/views.py:111-126 | one letter per result, in order, each read from the team's side |
| RecentForm.FormLetters | league/views.py:111-126 | the strip has min(5, number of results) letters, those of the first results |
| RecentForm.LetterAgreesWithStandings | league/views.py:112-126 | for a validated game the team played against another team, V, N and D are exactly a win, a draw and a defeat in the team's standings row |
| RecentForm.LetterTally | league/views.py:112-126 | for a validated game against another team, the team's recount gains one game played, a win exactly for V, a draw for N and a defeat for D |
| RecentForm.FormAgreesWithStandings | league/views.py:111-126 | over games the team played, the strip has as many V, N and D as the standings count wins, draws and defeats, one letter per game |
| RecentForm.FormAgreesWithTally | league/views.py:111-126 | over games the team played, the letter counts equal the won, drawn and lost counters of its recount, and it played one game per letter |
| Store.Upsert | league/models.py:156-161 | saving a result puts it in the table, and keeps exactly the results of every other match |
| Store.UpsertLength | league/models.py:156-161 | the table grows by one result exactly when the match had none, and otherwise keeps its size |
| Store.UpsertReplaces | league/models.py:156-161 | with at most one result per match before the save, there is at most one after it, and the saved match's only result is the new one: the previous result is gone |
| Store.FindTeam | league/views.py:413 | the lookup finds the team with the id, or reports that there is none |
| Store.ShuffledDistinct | league/views.py:473-474 | a shuffle of distinct team ids has the same length and no repeats |
| Store.LeagueStore.RecalculateAllStandings | league/signals.py:11-28 | the table becomes `Recalculated` of the teams, the results and the old table; nothing else changes |
| Store.LeagueStore.SaveResult | league/signals.py:31-38 | the result is saved in place of the match's previous one (the only result of the match afterwards), and the table is recalculated exactly when the result is validated |
| Store.LeagueStore.DeleteResult | league/signals.py:41-47 | the result is removed and the table is always recalculated |
| Store.LeagueStore.SaveTeam | league/signals.py:50-56 | a new team is added and gets a zeroed row (get_or_create); saving an existing team replaces it and leaves the table alone |
| Store.LeagueStore.ClearCalendar | league/views.py:462-463 | every match and result is deleted; the table is recalculated over no results when there was a result to delete, and is otherwise left alone; teams and bracket do not change |
| Store.LeagueStore.GenerateCalendar | league/views.py:453-524 | matches and results are always emptied; with two or more active teams the matches become the calendar of the active teams in name order (unshuffled) or of their shuffle, and the table gets one zeroed row per active team, in name order; with fewer, generation fails after the deletions |
| Store.LeagueStore.Populate | league/views.py:465-524 | once the tables are cleared, the matches become the calendar of the chosen order and the table the fresh rows in name order; teams, results and bracket do not change |
| Store.LeagueStore.Fixtures | league/views.py:471-524 | for distinct active teams the calendar is built over the name order or the shuffle, both of which list every active team once, and the fresh rows are one per team |
| Store.NameOrderExample | league/views.py:465 | three active teams saved as Zebra, Alpha and Mango are listed by the query as Alpha, Mango, Zebra |
| Store.SavedOrderIsNotNameOrder | league/views.py:465 | the order in which they were saved is not the query's order |
| Store.NameOrderFirstMatch | league/views.py:478-499 | over Alpha, Mango, Zebra the first match of the calendar is Mango against Zebra on matchday 1, Alpha having the bye |
| Store.LeagueStore.GeneratePlayoffs | league/views.py:607-658 | the old bracket is always deleted; with four or more rows the bracket becomes the seeding of the top four; otherwise it stays empty |
| Store.LeagueStore.UpdatePlayoffBracket | league/views.py:695-738 | the bracket becomes `Advanced` of the old one |
| Store.LeagueStore.RecordPlayoffResult | league/views.py:663-678 | the result is refused exactly when the penalty winner is not one of the match's teams; otherwise the match is saved as played and the bracket is advanced |
| Store.LeagueStore.RefreshPositions | league/views.py:209-222 | the rows are put in ranking order and numbered 1..N |

## Left out

- HTTP handling, rendering, redirects and flash messages are not modelled. The views are modelled only through the changes they make to the tables.
- Django's signal dispatch is not modelled. The receivers are explicit calls inside the store's methods.
- When a generation deletes many results, Django calls the delete receiver once per result. This is modelled as one recalculation. `Standings.RecalculatedIdempotent` shows that repeating it changes nothing.
- `random.shuffle` is not modelled. The caller passes any permutation of the active team ids.
- `Team.objects.filter(is_active=True)` sorts by name in the database. `GenerateCalendar` receives that list as `byName`, and its precondition `InNameOrder` pins down what the list must be. Team names are unique in the source. The model does not enforce that, so two teams with the same name could appear in either order.
- Standings.Recalculated: goes through the active teams in table order. The source goes through them in name order. The only effect is where a team's new zeroed row is added before the ranking, so only the order of tied rows can differ, and the database leaves that order unspecified anyway.
- The database returns tied standing rows in no defined order. The model breaks ties with a stable insertion sort, and the properties above are proved for that order.
- The store keeps the standing rows in ranking order after a recalculation. The database keeps rows unordered and sorts them on every query.
- A standing row is a value inside the store, not an object with its own identity.
- Teams are never removed: `team_delete` and its cascades are not modelled.
- The `Result.match` foreign key is replaced by the match's two teams, copied into each result. `add_result` also marks the match as played; that flag is not modelled.
- `PlayoffMatch.objects.filter(...).first()` picks the first row in table order. In the source, rows of the same round come back in an unspecified order.
- Accounts, password hashing, sessions and `login_view`/`change_password` are not modelled. The access check receives the user's flags as a value.
- `CleanName` counts the characters of the name after Django's field cleaning (which strips surrounding whitespace); that cleaning is not modelled.
- LeagueTags.Percentage: gives the ratio as a (value, total) pair. The source returns it rounded to one decimal as a float, which is not modelled.
- LeagueTags.ParseInt: handles ASCII digits, a sign and single underscores. It strips only the whitespace `IsSpace` lists: space, \t, \n, \v, \f, \r and \x1c to \x1f. Python's `int()` also strips \x85, \xa0 and the other Unicode spaces, accepts Unicode digits, and converts floats and booleans; none of that is modelled.
- Image uploads, logos, the JSON endpoints, the statistics averages, the admin site and the default-admin command are not modelled.
