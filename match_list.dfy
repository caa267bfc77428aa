/**
 * loadMatchesForPrediction in app.js with the HTML abstracted: for each match
 * of the round, whether it is closed, the user's existing prediction, and
 * what its card offers.
 */
module MatchList {
  import opened Wrappers
  import opened Api
  import opened Constants
  import Session

  /** The status literal app.js compares against (constants.js spells it 'da_disputare'). */
  const DaGiocare: string := "Da giocare"
  const Conclusa: string := "Conclusa"

  datatype Match = Match(
    id: string, dataPartita: Instant, stato: string,
    squadraCasaNome: string, squadraCasaId: string,
    squadraTrasfertaNome: string, squadraTrasfertaId: string)

  datatype Prediction = Prediction(
    matchId: string, risultatoCasa: string, risultatoTrasferta: string,
    punteggio: string, marcatori: seq<string>)

  /** `a <= b` between two dates; NaN compares false. */
  predicate AtOrBefore(a: Instant, b: Instant) {
    a.Time? && b.Time? && a.ms <= b.ms
  }

  /** `matchDate <= now || match.stato !== 'Da giocare'`. */
  predicate IsMatchClosed(dataPartita: Instant, stato: string, now: int) {
    AtOrBefore(dataPartita, Time(now)) || stato != DaGiocare
  }

  /**
   * A match is open exactly while it is still to be played and its kickoff
   * lies strictly in the future, or cannot be read as a date at all.
   */
  lemma IsMatchClosedIff(dataPartita: Instant, stato: string, now: int)
    ensures !IsMatchClosed(dataPartita, stato, now) <==>
      stato == DaGiocare && (dataPartita == InvalidDate || dataPartita.ms > now)
  {
  }

  /** Unlike isDataPassata, closing is not strict: a match closes at its kickoff instant. */
  lemma IsMatchClosedAtKickoff(d: int, now: int)
    ensures IsMatchClosed(Time(d), DaGiocare, now) <==> IsDataPassata(Time(d), now) || d == now
    ensures IsMatchClosed(Time(d), DaGiocare, d) && !IsDataPassata(Time(d), d)
  {
  }

  /** A closed match stays closed as the clock advances. */
  lemma IsMatchClosedMonotone(dataPartita: Instant, stato: string, now: int, later: int)
    requires now <= later && IsMatchClosed(dataPartita, stato, now)
    ensures IsMatchClosed(dataPartita, stato, later)
  {
  }

  /** `userPredictions.find(p => p.matchId === matchId)`: the first prediction for the match. */
  function FindPrediction(predictions: seq<Prediction>, matchId: string): (r: Option<Prediction>)
    ensures r.None? <==> forall i :: 0 <= i < |predictions| ==> predictions[i].matchId != matchId
    ensures r.Some? ==> exists i :: (
      && 0 <= i < |predictions| && predictions[i] == r.value && r.value.matchId == matchId
      && forall j :: 0 <= j < i ==> predictions[j].matchId != matchId)
  {
    if predictions == [] then None
    else if predictions[0].matchId == matchId then Some(predictions[0])
    else
      var r := FindPrediction(predictions[1..], matchId);
      assert forall i :: 1 <= i < |predictions| ==> predictions[i] == predictions[1..][i - 1];
      if r.Some? then
        var k :| 0 <= k < |predictions[1..]| && predictions[1..][k] == r.value && r.value.matchId == matchId
          && forall j :: 0 <= j < k ==> predictions[1..][j].matchId != matchId;
        assert predictions[k + 1] == r.value;
        assert forall j :: 0 <= j < k + 1 ==> predictions[j].matchId != matchId by {
          forall j | 0 <= j < k + 1 ensures predictions[j].matchId != matchId {
            if j > 0 { assert predictions[j] == predictions[1..][j - 1]; }
          }
        }
        r
      else r
  }

  /** The user's predictions: those of a successful reply, none otherwise. */
  function UserPredictions(reply: Reply<seq<Prediction>>): seq<Prediction> {
    if reply.Success? then reply.data else []
  }

  /** The `data-*` attributes a card hands to openPredictionModal. */
  datatype ClickTarget = ClickTarget(
    matchId: string, homeTeam: string, homeTeamId: string,
    awayTeam: string, awayTeamId: string, leagueId: string)

  /** The lower part of a card. */
  datatype Footer =
    | YourPrediction(showsPoints: bool, showsScorers: bool)
    | NotMade
    | ClickToPredict

  /**
   * One match card: `listens` when it has the class 'match-card' (a click
   * listener is attached), `target` when it carries the data attributes.
   */
  datatype Card = Card(
    closed: bool, listens: bool, target: Option<ClickTarget>, showsResult: bool,
    prediction: Option<Prediction>, footer: Footer)

  function CardFor(m: Match, predictions: seq<Prediction>, now: int, leagueId: string): Card {
    var userPrediction := FindPrediction(predictions, m.id);
    var closed := IsMatchClosed(m.dataPartita, m.stato, now);
    Card(
      closed,
      !closed,
      if !closed && userPrediction.None? then
        Some(ClickTarget(m.id, m.squadraCasaNome, m.squadraCasaId, m.squadraTrasfertaNome, m.squadraTrasfertaId, leagueId))
      else None,
      m.stato != DaGiocare,
      userPrediction,
      match userPrediction
      case Some(p) => YourPrediction(m.stato == Conclusa, |p.marcatori| > 0)
      case None => if closed then NotMade else ClickToPredict)
  }

  /**
   * A card offers to make a prediction, with the match's own data, exactly
   * when the match is open and the user has none for it; a closed match
   * without one says it was not made; an existing one is always shown.
   */
  lemma CardForSpec(m: Match, predictions: seq<Prediction>, now: int, leagueId: string)
    ensures var c := CardFor(m, predictions, now, leagueId);
      var open := !IsMatchClosed(m.dataPartita, m.stato, now);
      var none := forall i :: 0 <= i < |predictions| ==> predictions[i].matchId != m.id;
      && (c.target.Some? <==> open && none)
      && (c.target.Some? ==> (
            && c.target.value.matchId == m.id && c.target.value.leagueId == leagueId
            && c.target.value.homeTeamId == m.squadraCasaId
            && c.target.value.awayTeamId == m.squadraTrasfertaId))
      && (c.footer == ClickToPredict <==> c.target.Some?)
      && (c.footer == NotMade <==> !open && none)
      && (c.footer.YourPrediction? <==> !none)
      && (c.prediction.Some? ==> c.prediction.value.matchId == m.id)
      && (c.listens <==> open)
  {
  }

  /** An open match the user already predicted still listens for clicks but carries no data attributes. */
  lemma OpenPredictedCardHasNoTarget(m: Match, p: Prediction, now: int, leagueId: string)
    requires !IsMatchClosed(m.dataPartita, m.stato, now) && p.matchId == m.id
    ensures CardFor(m, [p], now, leagueId).listens && CardFor(m, [p], now, leagueId).target.None?
  {
  }

  /** The cards of a round; the clock is read once per match (`clock[i]` for match i). */
  method RenderCards(matches: seq<Match>, predictions: seq<Prediction>, clock: seq<int>, leagueId: string)
    returns (cards: seq<Card>)
    requires |clock| == |matches|
    ensures |cards| == |matches|
    ensures forall i :: 0 <= i < |matches| ==> cards[i] == CardFor(matches[i], predictions, clock[i], leagueId)
  {
    cards := [];
    var i := 0;
    while i < |matches|
      invariant 0 <= i <= |matches|
      invariant |cards| == i
      invariant forall k :: 0 <= k < i ==> cards[k] == CardFor(matches[k], predictions, clock[k], leagueId)
    {
      cards := cards + [CardFor(matches[i], predictions, clock[i], leagueId)];
      i := i + 1;
    }
  }

  datatype MatchesView = NoMatches | LoadFailed | Cards(cards: seq<Card>)

  const NoMatchesMessage: string := "Nessuna partita disponibile per questa giornata"
  const LoadFailedMessage: string := "Errore nel caricamento delle partite"

  /**
   * loadMatchesForPrediction: no cards when the round's matches cannot be
   * fetched or are none; a failure when nobody is logged in (reading
   * `currentUser.id` throws and is caught); otherwise one card per match.
   */
  method LoadMatchesForPrediction(
    leagueId: string, currentUser: Option<Session.User>,
    matchesReply: Reply<seq<Match>>, predictionsReply: Reply<seq<Prediction>>, clock: seq<int>)
    returns (view: MatchesView)
    requires matchesReply.Success? ==> |clock| == |matchesReply.data|
    ensures (matchesReply.Fail? || matchesReply.data == []) ==> view == NoMatches
    ensures matchesReply.Success? && matchesReply.data != [] && currentUser.None? ==> view == LoadFailed
    ensures matchesReply.Success? && matchesReply.data != [] && currentUser.Some? ==> (
      && view.Cards?
      && |view.cards| == |matchesReply.data|
      && forall i :: 0 <= i < |view.cards| ==>
           view.cards[i] == CardFor(matchesReply.data[i], UserPredictions(predictionsReply), clock[i], leagueId))
  {
    if matchesReply.Fail? || matchesReply.data == [] {
      view := NoMatches;
    } else if currentUser.None? {
      view := LoadFailed;
    } else {
      var cards := RenderCards(matchesReply.data, UserPredictions(predictionsReply), clock, leagueId);
      view := Cards(cards);
    }
  }
}
