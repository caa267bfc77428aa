/**
 * The prediction modal of app.js with the DOM abstracted: the two score
 * inputs, the hidden match and league inputs, the home and away scorer
 * checkboxes in document order, and the visibility of the scorer lists.
 */
module PredictionForm {
  import opened Wrappers
  import opened Api
  import opened JsNumber
  import Json
  import Constants
  import Session

  /** A scorer checkbox: its `value` (the player id) and whether it is ticked. */
  datatype Checkbox = Checkbox(value: string, checked: bool)

  /** The values of the ticked boxes, in order. */
  function CheckedValues(boxes: seq<Checkbox>): seq<string> {
    if boxes == [] then []
    else (if boxes[0].checked then [boxes[0].value] else []) + CheckedValues(boxes[1..])
  }

  lemma {:induction false} CheckedValuesAppend(a: seq<Checkbox>, b: seq<Checkbox>)
    ensures CheckedValues(a + b) == CheckedValues(a) + CheckedValues(b)
  {
    if a == [] {
      assert a + b == b;
    } else {
      var head := if a[0].checked then [a[0].value] else [];
      assert (a + b)[0] == a[0] && (a + b)[1..] == a[1..] + b;
      CheckedValuesAppend(a[1..], b);
      calc {
        CheckedValues(a + b);
        head + CheckedValues(a[1..] + b);
        head + (CheckedValues(a[1..]) + CheckedValues(b));
        (head + CheckedValues(a[1..])) + CheckedValues(b);
      }
    }
  }

  /** A value is collected exactly when some ticked box carries it. */
  lemma {:induction false} CheckedValuesMembership(boxes: seq<Checkbox>, v: string)
    ensures v in CheckedValues(boxes) <==> exists i :: 0 <= i < |boxes| && boxes[i].checked && boxes[i].value == v
  {
    if boxes != [] {
      CheckedValuesMembership(boxes[1..], v);
      assert forall i :: 1 <= i < |boxes| ==> boxes[i] == boxes[1..][i - 1];
    }
  }

  /** Every box with its tick cleared. */
  function Unchecked(boxes: seq<Checkbox>): seq<Checkbox> {
    seq(|boxes|, i requires 0 <= i < |boxes| => boxes[i].(checked := false))
  }

  /** Clearing keeps every box and its value, and nothing is collected from a cleared list. */
  lemma {:induction false} UncheckedCollectsNothing(boxes: seq<Checkbox>, others: seq<Checkbox>)
    ensures |Unchecked(boxes)| == |boxes|
    ensures forall i :: 0 <= i < |boxes| ==> Unchecked(boxes)[i].value == boxes[i].value && !Unchecked(boxes)[i].checked
    ensures CheckedValues(Unchecked(boxes) + others) == CheckedValues(others)
  {
    if boxes == [] {
      assert Unchecked(boxes) + others == others;
    } else {
      UncheckedCollectsNothing(boxes[1..], others);
      var u := Unchecked(boxes) + others;
      assert Unchecked(boxes)[1..] == Unchecked(boxes[1..]);
      assert u[0] == boxes[0].(checked := false) && u[1..] == Unchecked(boxes[1..]) + others;
    }
  }

  /** `parseInt(raw) || 0`: a score that does not parse counts as 0. */
  function ScoreOrZero(raw: string): int {
    ParseInt(raw).GetOr(0)
  }

  /** `a > b` on parsed scores; NaN compares false. */
  predicate JsGreater(a: Option<int>, b: Option<int>) {
    a.Some? && b.Some? && a.value > b.value
  }

  /** The outcome symbol submitPrediction derives from the raw score inputs. */
  function SegnoFromForm(homeRaw: string, awayRaw: string): string {
    var h, a := ParseInt(homeRaw), ParseInt(awayRaw);
    if JsGreater(h, a) then "1" else if JsGreater(a, h) then "2" else "X"
  }

  /**
   * The derived symbol is calcolaSegno of the parsed scores; when either
   * score does not parse both comparisons fail and the symbol is a draw.
   */
  lemma SegnoFromFormAgrees(homeRaw: string, awayRaw: string)
    ensures Constants.IsSegno(SegnoFromForm(homeRaw, awayRaw))
    ensures ParseInt(homeRaw).Some? && ParseInt(awayRaw).Some? ==>
      SegnoFromForm(homeRaw, awayRaw) == Constants.CalcolaSegno(ParseInt(homeRaw).value, ParseInt(awayRaw).value)
    ensures ParseInt(homeRaw).None? || ParseInt(awayRaw).None? ==> SegnoFromForm(homeRaw, awayRaw) == "X"
  {
    Constants.SegnoValues();
  }

  /** Example: a 2-1 scoreline is a home win. */
  lemma SegnoFromFormHomeWin()
    ensures SegnoFromForm("2", "1") == "1"
  {
    ParseIntOfIntToString(2, "");
    ParseIntOfIntToString(1, "");
    assert IntToString(2) + "" == "2" && IntToString(1) + "" == "1";
  }

  /** Example: an empty home score against 2 away goals is a draw, since NaN compares false. */
  lemma SegnoFromFormEmptyHome()
    ensures SegnoFromForm("", "2") == "X"
  {
    assert ParseInt("") == None;
  }

  /** The fields submitPrediction sends to the backend. */
  datatype Payload = Payload(
    userId: string, matchId: string, leagueId: string, segno: string,
    risultatoCasa: string, risultatoTrasferta: string, marcatori: string)

  /**
   * A request to save, or the alert submitPrediction shows when reading
   * `currentUser.id` throws because nobody is logged in.
   */
  datatype Submission = Request(payload: Payload) | SaveError(message: string)

  const SaveErrorMessage: string := "Errore durante il salvataggio della previsione"
  const SavedMessage: string := "Previsione salvata con successo"

  /** What the client does with the save reply: reload the round's matches, or show the refusal. */
  datatype SaveEffect = Saved(message: string, leagueId: string, roundId: string) | Refused(message: string)

  function AfterSave(reply: Reply<()>, leagueId: string, selectedRound: string): (e: SaveEffect)
    ensures e.Saved? <==> reply.Success?
    ensures e.Saved? ==> e == Saved(SavedMessage, leagueId, selectedRound)
    ensures e.Refused? ==> e.message == reply.message
  {
    match reply
    case Success(_) => Saved(SavedMessage, leagueId, selectedRound)
    case Fail(message) => Refused(message)
  }

  /** Clears every box of one side, in place. */
  method UncheckAll(boxes: array<Checkbox>)
    modifies boxes
    ensures boxes[..] == Unchecked(old(boxes[..]))
  {
    var i := 0;
    while i < boxes.Length
      invariant 0 <= i <= boxes.Length
      invariant forall k :: 0 <= k < i ==> boxes[k] == old(boxes[k]).(checked := false)
      invariant forall k :: i <= k < boxes.Length ==> boxes[k] == old(boxes[k])
    {
      boxes[i] := boxes[i].(checked := false);
      i := i + 1;
    }
  }

  /** The values of the ticked boxes of `boxes`, collected one by one. */
  method CollectChecked(boxes: seq<Checkbox>) returns (scorers: seq<string>)
    ensures scorers == CheckedValues(boxes)
  {
    scorers := [];
    var i := 0;
    while i < |boxes|
      invariant 0 <= i <= |boxes|
      invariant scorers == CheckedValues(boxes[..i])
    {
      if boxes[i].checked {
        scorers := scorers + [boxes[i].value];
      }
      assert boxes[..i + 1] == boxes[..i] + [boxes[i]];
      CheckedValuesAppend(boxes[..i], [boxes[i]]);
      i := i + 1;
    }
    assert boxes[..i] == boxes;
  }

  class PredictionModal {
    var matchId: string
    var leagueId: string
    var homeScore: string
    var awayScore: string
    var home: array<Checkbox>
    var away: array<Checkbox>
    var scorersShown: bool
    var homeScorersShown: bool
    var awayScorersShown: bool

    /** The home and away lists are different elements of the page. */
    ghost predicate Valid()
      reads this
    {
      home != away
    }

    /** The modal as the page currently holds it, visibility of the scorer sections included. */
    constructor (matchId: string, leagueId: string, homeScore: string, awayScore: string,
                 home: seq<Checkbox>, away: seq<Checkbox>,
                 scorersShown: bool, homeScorersShown: bool, awayScorersShown: bool)
      ensures Valid()
      ensures this.matchId == matchId && this.leagueId == leagueId
      ensures this.homeScore == homeScore && this.awayScore == awayScore
      ensures fresh(this.home) && fresh(this.away) && this.home[..] == home && this.away[..] == away
      ensures this.scorersShown == scorersShown
      ensures this.homeScorersShown == homeScorersShown && this.awayScorersShown == awayScorersShown
    {
      this.matchId := matchId;
      this.leagueId := leagueId;
      this.homeScore := homeScore;
      this.awayScore := awayScore;
      this.home := new Checkbox[|home|](i requires 0 <= i < |home| => home[i]);
      this.away := new Checkbox[|away|](i requires 0 <= i < |away| => away[i]);
      this.scorersShown := scorersShown;
      this.homeScorersShown := homeScorersShown;
      this.awayScorersShown := awayScorersShown;
    }

    /**
     * updateScorersVisibility: with both scores 0 (or unparsable) the scorer
     * section is hidden and no box changes; otherwise the section is shown,
     * and a side whose score is 0 is hidden and all its boxes are cleared.
     */
    method UpdateScorersVisibility()
      requires Valid()
      modifies this`scorersShown, this`homeScorersShown, this`awayScorersShown, home, away
      ensures Valid()
      ensures var h, a := ScoreOrZero(homeScore), ScoreOrZero(awayScore);
        if h == 0 && a == 0 then
          !scorersShown && homeScorersShown == old(homeScorersShown) && awayScorersShown == old(awayScorersShown)
          && home[..] == old(home[..]) && away[..] == old(away[..])
        else
          scorersShown && homeScorersShown == (h != 0) && awayScorersShown == (a != 0)
          && home[..] == (if h == 0 then Unchecked(old(home[..])) else old(home[..]))
          && away[..] == (if a == 0 then Unchecked(old(away[..])) else old(away[..]))
    {
      var h := ScoreOrZero(homeScore);
      var a := ScoreOrZero(awayScore);
      if h == 0 && a == 0 {
        scorersShown := false;
      } else {
        scorersShown := true;
        if h == 0 {
          homeScorersShown := false;
          UncheckAll(home);
        } else {
          homeScorersShown := true;
        }
        if a == 0 {
          awayScorersShown := false;
          UncheckAll(away);
        } else {
          awayScorersShown := true;
        }
      }
    }

    /** `document.querySelectorAll('.scorer-checkbox:checked')`: home boxes first, then away. */
    method CollectScorers() returns (scorers: seq<string>)
      ensures scorers == CheckedValues(home[..] + away[..])
    {
      scorers := CollectChecked(home[..] + away[..]);
    }

    /**
     * submitPrediction: derive the symbol, collect the ticked scorers and
     * build the request; the scores go out as typed and the scorers as a
     * JSON array that decodes to exactly the ticked values.
     */
    method SubmitPrediction(currentUser: Option<Session.User>) returns (submission: Submission)
      ensures currentUser.None? ==> submission == SaveError(SaveErrorMessage)
      ensures currentUser.Some? ==> (
        && submission.Request?
        && submission.payload.userId == currentUser.value.id
        && submission.payload.matchId == matchId && submission.payload.leagueId == leagueId
        && submission.payload.segno == SegnoFromForm(homeScore, awayScore)
        && submission.payload.risultatoCasa == homeScore && submission.payload.risultatoTrasferta == awayScore
        && submission.payload.marcatori == Json.StringifyStrings(CheckedValues(home[..] + away[..]))
        && Json.ParseStrings(submission.payload.marcatori) == Some(CheckedValues(home[..] + away[..])))
    {
      var segno := SegnoFromForm(homeScore, awayScore);
      var scorers := CollectScorers();
      if currentUser.None? {
        submission := SaveError(SaveErrorMessage);
      } else {
        Json.StringifyStringsRoundTrip(scorers);
        submission := Request(Payload(currentUser.value.id, matchId, leagueId, segno,
                                      homeScore, awayScore, Json.StringifyStrings(scorers)));
      }
    }
  }
}
