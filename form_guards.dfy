/** The checks the DOMContentLoaded handlers of app.js make before acting. */
module FormGuards {
  import opened Wrappers
  import Session

  const PasswordMismatchMessage: string := "Le password non coincidono"
  const SelectLeagueMessage: string := "Seleziona una lega"
  const SelectRoundMessage: string := "Seleziona una giornata"

  /** The registration form either warns or calls `register(email, password, nome, cognome)`. */
  datatype RegisterAction =
    | PasswordMismatch(message: string)
    | CallRegister(email: string, password: string, nome: string, cognome: string)

  function OnRegisterSubmit(nome: string, cognome: string, email: string, password: string, confirmPassword: string)
    : (r: RegisterAction)
    ensures r.CallRegister? <==> password == confirmPassword
    ensures r.CallRegister? ==> r.email == email && r.password == password && r.nome == nome && r.cognome == cognome
    ensures r.PasswordMismatch? ==> r.message == PasswordMismatchMessage
  {
    if password != confirmPassword then PasswordMismatch(PasswordMismatchMessage)
    else CallRegister(email, password, nome, cognome)
  }

  /** The load-matches button either warns or calls `loadMatchesForPrediction(leagueId, roundId)`. */
  datatype LoadAction = Warn(message: string) | CallLoadMatches(leagueId: string, roundId: string)

  /** An empty select value is falsy; the league is checked before the round. */
  function OnLoadMatchesClick(leagueId: string, roundId: string): (r: LoadAction)
    ensures r.CallLoadMatches? <==> leagueId != "" && roundId != ""
    ensures r.CallLoadMatches? ==> r.leagueId == leagueId && r.roundId == roundId
    ensures leagueId == "" ==> r == Warn(SelectLeagueMessage)
    ensures leagueId != "" && roundId == "" ==> r == Warn(SelectRoundMessage)
  {
    if leagueId == "" then Warn(SelectLeagueMessage)
    else if roundId == "" then Warn(SelectRoundMessage)
    else CallLoadMatches(leagueId, roundId)
  }

  datatype NavItem = NavHome | NavLeghe | NavPrevisioni | NavAdmin | NavLogin | JoinLeague

  /** Where a navigation click or the join-league button leads. */
  datatype Destination = HomeSection | LoginSection | LegheSection | PrevisioniSection | AdminSection | JoinLeagueModal

  const AdminRole: string := "Admin"

  /**
   * The pages behind a login lead to the login form when nobody is logged
   * in; the admin page is only for a user whose role is 'Admin', and sends
   * everyone else home.
   */
  function Navigate(item: NavItem, currentUser: Option<Session.User>): (d: Destination)
    ensures item in {NavLeghe, NavPrevisioni, JoinLeague} ==> (d == LoginSection <==> currentUser.None?)
    ensures d == AdminSection <==> item == NavAdmin && currentUser.Some? && currentUser.value.ruolo == AdminRole
    ensures item == NavAdmin && d != AdminSection ==> d == HomeSection
    ensures item == NavHome ==> d == HomeSection
    ensures item == NavLogin ==> d == LoginSection
    ensures currentUser.Some? ==>
      && (item == NavLeghe ==> d == LegheSection)
      && (item == NavPrevisioni ==> d == PrevisioniSection)
      && (item == JoinLeague ==> d == JoinLeagueModal)
  {
    match item
    case NavHome => HomeSection
    case NavLogin => LoginSection
    case NavLeghe => if currentUser.None? then LoginSection else LegheSection
    case NavPrevisioni => if currentUser.None? then LoginSection else PrevisioniSection
    case JoinLeague => if currentUser.None? then LoginSection else JoinLeagueModal
    case NavAdmin =>
      if currentUser.None? || currentUser.value.ruolo != AdminRole then HomeSection else AdminSection
  }
}
