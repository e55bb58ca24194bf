/** The validation rules of the league's forms: the team name, the new
    administrator's username and password pair, and the choices offered for the
    penalty-shoot-out winner of a playoff match. */
module Forms {
  import opened Wrappers
  import opened Models

  // ---------------------------------------------------------------------------
  // TeamForm.clean_name
  // ---------------------------------------------------------------------------

  const NameTooShort: string := "Le nom doit contenir au moins 2 caractères."

  /** A name of fewer than two characters is refused; any other is kept as typed. */
  function CleanName(name: string): (r: Outcome<string, string>)
    ensures r.Ok? <==> |name| >= 2
    ensures r.Ok? ==> r.value == name
    ensures r.Err? ==> r.error == NameTooShort
  {
    if |name| < 2 then Err(NameTooShort) else Ok(name)
  }

  // ---------------------------------------------------------------------------
  // AdminUserForm.clean_username and AdminUserForm.clean
  // ---------------------------------------------------------------------------

  const UsernameTaken: string := "Ce nom d'utilisateur existe déjà."
  const PasswordsDiffer: string := "Les mots de passe ne correspondent pas."

  /** A username already held by a user account is refused. */
  function CleanUsername(username: string, existing: seq<string>): (r: Outcome<string, string>)
    ensures r.Ok? <==> username !in existing
    ensures r.Ok? ==> r.value == username
    ensures r.Err? ==> r.error == UsernameTaken
  {
    if username in existing then Err(UsernameTaken) else Ok(username)
  }

  /** Python truthiness of an optional string: present and not empty. */
  predicate Truthy(s: Option<string>)
  {
    s.Some? && |s.value| > 0
  }

  /** The whole-form check: a mismatch is reported only when both passwords
      were cleaned to non-empty values and they differ; otherwise the cleaned
      data passes through. */
  function CleanPasswords(password: Option<string>, confirm: Option<string>): (r: Outcome<(Option<string>, Option<string>), string>)
    ensures r.Err? <==> Truthy(password) && Truthy(confirm) && password != confirm
    ensures r.Ok? ==> r.value == (password, confirm)
    ensures r.Err? ==> r.error == PasswordsDiffer
  {
    if Truthy(password) && Truthy(confirm) && password != confirm then Err(PasswordsDiffer)
    else Ok((password, confirm))
  }

  // ---------------------------------------------------------------------------
  // PlayoffResultForm.__init__
  // ---------------------------------------------------------------------------

  /** The teams of the team table whose id is `home` or `away`, in table order:
      the queryset the penalty-winner choices are narrowed to. */
  function TeamsAmong(teams: seq<Team>, home: Option<TeamId>, away: Option<TeamId>): (ids: seq<TeamId>)
    ensures forall id :: id in ids <==>
      (Some(id) == home || Some(id) == away) && exists t :: t in teams && t.id == id
  {
    if teams == [] then []
    else
      var last := teams[|teams| - 1];
      TeamsAmong(teams[..|teams| - 1], home, away)
        + (if Some(last.id) == home || Some(last.id) == away then [last.id] else [])
  }

  /** Every team of the table, the queryset a foreign key offers by default. */
  function AllTeamIds(teams: seq<Team>): (ids: seq<TeamId>)
    ensures forall id :: id in ids <==> exists t :: t in teams && t.id == id
  {
    if teams == [] then []
    else AllTeamIds(teams[..|teams| - 1]) + [teams[|teams| - 1].id]
  }

  /** The penalty_winner field of a playoff result form. */
  class PlayoffResultForm {
    /** The teams the field offers. */
    var choices: seq<TeamId>
    /** Whether leaving the field empty is an error. */
    var required: bool

    /** Building the form for `instance`: a field that offers every team and
        may be left empty (the foreign key is nullable and blank); for an
        instance already stored, the choices are narrowed to its two teams
        and the field is made optional. */
    constructor (teams: seq<Team>, instance: PlayoffMatch, stored: bool)
      ensures stored ==> choices == TeamsAmong(teams, instance.home, instance.away)
      ensures !stored ==> choices == AllTeamIds(teams)
      ensures !required
    {
      choices := AllTeamIds(teams);
      required := false;
      if stored {
        choices := TeamsAmong(teams, instance.home, instance.away);
        required := false;
      }
    }

    /** The field's validation: empty is fine unless required, and a team must be one of the choices. */
    predicate Accepts(winner: Option<TeamId>)
      reads this
    {
      match winner
      case None => !required
      case Some(id) => id in choices
    }
  }

  /** For a stored match whose teams are in the table, the form accepts exactly
      no winner, the home team or the away team. */
  lemma PenaltyChoicesAreTheMatchTeams(teams: seq<Team>, instance: PlayoffMatch, winner: Option<TeamId>)
    requires instance.home.Some? && instance.away.Some?
    requires exists t :: t in teams && t.id == instance.home.value
    requires exists t :: t in teams && t.id == instance.away.value
    ensures (winner.None? || (winner.value in TeamsAmong(teams, instance.home, instance.away)))
        <==> (winner.None? || winner == instance.home || winner == instance.away)
  {
  }

  /** A penalty winner the form accepted for a semifinal's second leg (venues
      swapped) makes the tie a proper one between the two first-leg teams. */
  lemma AcceptedWinnerIsOneOfTheTie(teams: seq<Team>, leg1: PlayoffMatch, leg2: PlayoffMatch, winner: Option<TeamId>)
    requires leg2.home == leg1.away && leg2.away == leg1.home
    requires winner.None? || winner.value in TeamsAmong(teams, leg2.home, leg2.away)
    ensures winner.Some? ==> winner == leg1.home || winner == leg1.away
  {
  }
}
