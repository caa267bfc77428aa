# Scommessone client rules in Dafny

Scommessone is a browser client for a football prediction pool. Users
register, log in, pick a league and a match day ("giornata"), and predict
each match. A prediction has a score, an outcome symbol ("segno": '1' home
win, 'X' draw, '2' away win) and the scorers ("marcatori"). The backend does
all scoring, persistence and standings. This project models the small rules
the client itself decides, and proves properties of them:

- constants.js (module `Constants`):
  - `calcolaSegno`, the symbol of a scoreline;
  - `isDataPassata`, over integer millisecond timestamps, with an invalid
    date as NaN;
  - `formatoTempo`, minutes written as "Xm", "Xh" or "Xh Ym";
  - the `SEGNI_PARTITA` options.
- app.js, with the DOM abstracted:
  - `Session`: a class holding `currentUser` and localStorage (a
    `map<string, string>`). `checkLoggedIn`, `login`, `register` and
    `logout` are methods on it. Its invariant is that whoever is logged in
    is the user a page reload would resume.
  - `PredictionForm`: a class for the prediction modal. It holds the score
    inputs and the home and away scorer checkboxes (`array`s of
    `(value, checked)` records). `updateScorersVisibility` clears one side's
    boxes in place when that side's score is 0. `submitPrediction` derives
    the symbol from the raw inputs, collects the ticked scorers and builds
    the request.
  - `MatchList`: for each card in `loadMatchesForPrediction`, the
    match-closed rule, the lookup of the user's existing prediction, and
    what the card offers.
  - `FormGuards`: the password-confirmation check, the league/round check
    of the load-matches button, and the login-required navigation checks.
- `JsNumber` and `Json` model the parts of the JavaScript runtime the rules
  depend on:
  - `parseInt` with no radix (section 19.2.5 of ECMA-262): leading white
    space, sign, a `0x` prefix, the longest run of digits, and NaN;
  - the decimal text of an integer in a template literal;
  - `JSON.stringify` of strings, string arrays and flat string objects
    (section 25.5.2.3 of ECMA-262), with a decoder for that output.

Backend replies are `Api.Reply` values: `Success(data)` or
`Fail(message)`. A transport failure is a `Fail` carrying `callAPI`'s
"Errore di connessione". The clock is a parameter: `now`, or in
`MatchList.RenderCards` one reading per match, because app.js calls
`new Date()` inside the loop.

The client leaves these checks to the backend, and the model does not add
them:
- No outcome-symbol validation exists: the symbol is always computed,
  never typed by the user.
- No scorer-roster check exists, and no rule derives the score from the
  chosen scorers.
- Nothing checks the deadline before submitting.
- No 0–20 score bound exists.
- A match is closed at its kickoff (`<=`). `isDataPassata` is strict (`<`).
- app.js compares the status with 'Da giocare', but constants.js spells
  the status 'da_disputare'. The model keeps app.js's literal.

Notable behaviours of the code, stated and proved:
- If either score does not parse (for example an empty field),
  `submitPrediction` sends 'X'. For the same form,
  `updateScorersVisibility` counts that score as 0.
- If nobody is logged in, submitting a prediction fails inside the `try`,
  because reading `currentUser.id` throws. The catch shows 'Errore durante
  il salvataggio della previsione'. Loading the matches reads
  `currentUser.id` only after a successful, non-empty matches reply. In that
  case its catch shows 'Errore nel caricamento delle partite'.
- On an open match the user has already predicted, the card keeps its click
  listener but carries none of the data the modal needs.
- The scorers go out as a JSON array. Decoding it gives back exactly the
  ticked values, home first and then away.

## Model

| member | source | states |
|---|---|---|
| Constants.CalcolaSegno | constants.js:36-40 | the result is one of SEGNI_PARTITA's values; it is '1' iff home > away, '2' iff home < away, 'X' iff equal |
| Constants.CalcolaSegnoSwap | constants.js:36-40 | swapping the two goal counts swaps '1' and '2' and keeps 'X' |
| Constants.SegnoValues | constants.js:4-8 | '1', 'X' and '2' are the values of SEGNI_PARTITA |
| Constants.IsDataPassataStrict | constants.js:59-61 | a date has passed iff it is strictly before now; not at equality; an invalid date never has |
| Constants.IsDataPassataMonotone | constants.js:59-61 | once a date has passed it stays passed as now grows |
| Constants.HoursAndMinutes | constants.js:67-69 | for at least 60 minutes: hours >= 1, 0 <= minutes < 60, hours*60 + minutes is the input |
| Constants.FormatoTempoShape | constants.js:64-72 | under 60: the decimal followed by "m" and no 'h'; from 60: "<h>h" exactly on whole hours, otherwise "<h>h <m>m" |
| Constants.FormatoTempoRoundTrip | constants.js:64-72 | reading the output back gives the input duration, for every integer |
| Constants.FormatoTempoInjective | constants.js:64-72 | different durations are never written the same |
| JsNumber.IntToStringRoundTrip | constants.js:66 | the decimal text of an integer reads back strictly as the same integer |
| JsNumber.TrimStartIsSuffix | app.js:755-756 | parseInt skips exactly a prefix of the input, and every character it skips is white space |
| JsNumber.ParseIntOfIntToString | app.js:755-756 | parseInt of an integer's decimal text, followed by anything that does not extend the number, is that integer |
| Json.QuoteRoundTrip | app.js:813 | a JSON-quoted string decodes back to itself, and decoding resumes right after it |
| Json.StringifyStringsRoundTrip | app.js:813 | decoding JSON.stringify of a string array gives the same array |
| Json.StringifyObjectRoundTrip | app.js:120 | decoding JSON.stringify of a flat string object gives the same members in order |
| Session.UserRoundTrip | app.js:81 | JSON.parse of a stored user gives that user back |
| Session.RestoreAfterStore | app.js:77-87 | after a user has been stored under 'user', checkLoggedIn resumes exactly that user |
| Session.RestoreAfterLogout | app.js:149-151 | after 'user' is removed, checkLoggedIn finds no session |
| Session.Session.constructor | app.js:3 | at page load nobody is logged in and storage keeps its contents |
| Session.Session.CheckLoggedIn | app.js:77-87 | the stored value says logged in (currentUser becomes the stored user), logged out (key absent or empty), or unreadable (currentUser unchanged); storage unchanged; the invariant holds |
| Session.Session.Login | app.js:115-130 | returns reply success; on success currentUser is the returned user and 'user' holds it, on failure neither changes; the invariant holds |
| Session.Session.Register | app.js:132-147 | as Login, for the registration reply |
| Session.Session.Logout | app.js:149-151 | 'user' is removed from storage, the rest of storage kept, currentUser is null |
| PredictionForm.CheckedValuesAppend | app.js:800-803 | the collected scorers of two lists are those of the first followed by those of the second |
| PredictionForm.CheckedValuesMembership | app.js:800-803 | a value is collected iff some ticked box carries it |
| PredictionForm.UncheckedCollectsNothing | app.js:767-779 | clearing a side keeps its boxes and values, clears every tick, and leaves only the other boxes' scorers to collect |
| PredictionForm.SegnoFromFormAgrees | app.js:790-797 | the derived symbol is a SEGNI_PARTITA value, equals calcolaSegno of the parsed scores, and is 'X' when either score is NaN |
| PredictionForm.SegnoFromFormHomeWin | app.js:790-797 | the raw inputs "2" and "1" give '1' |
| PredictionForm.SegnoFromFormEmptyHome | app.js:790-797 | an empty home input with "2" away gives 'X', because NaN compares false both ways |
| PredictionForm.AfterSave | app.js:816-824 | a successful save shows the saved message and reloads the league and selected round; a refusal shows the server's message |
| PredictionForm.UncheckAll | app.js:769 | every box of the array is now unticked, values and order unchanged |
| PredictionForm.CollectChecked | app.js:800-803 | the loop collects exactly the ticked boxes' values, in document order |
| PredictionForm.PredictionModal.UpdateScorersVisibility | app.js:754-781 | with both scores 0 or unparsable: section hidden, no box changes; otherwise section shown, a side with score 0 hidden and fully cleared, a side with a non-zero score kept as it was |
| PredictionForm.PredictionModal.CollectScorers | app.js:800-803 | the scorers are the ticked values of the home boxes followed by the away boxes |
| PredictionForm.PredictionModal.constructor | app.js:754-781 | the modal holds the given ids, raw score inputs, copies of the two checkbox lists in fresh arrays, and the given visibility of the three scorer sections |
| PredictionForm.PredictionModal.SubmitPrediction | app.js:783-827 | with no user, the save-error alert; otherwise matchId, leagueId and the raw score strings forwarded unchanged, the derived symbol, and a marcatori text that is JSON.stringify of the collected scorers and decodes to exactly them |
| MatchList.IsMatchClosedIff | app.js:557 | open iff the status is 'Da giocare' and the kickoff is strictly in the future or not a valid date |
| MatchList.IsMatchClosedAtKickoff | app.js:557 | closing is non-strict: closed iff isDataPassata or kickoff == now |
| MatchList.IsMatchClosedMonotone | app.js:557 | a closed match stays closed as now grows |
| MatchList.FindPrediction | app.js:554 | none iff no prediction has the match's id; otherwise the first prediction with that id |
| MatchList.CardForSpec | app.js:568-635 | the card carries the match's data attributes iff it is open and has no prediction; "click to predict" iff it does; "not made" iff closed without one; an existing prediction is shown; the click listener iff open |
| MatchList.OpenPredictedCardHasNoTarget | app.js:568-574 | an open, already-predicted match still gets the click listener but no data attributes |
| MatchList.RenderCards | app.js:552-639 | one card per match, in order, each from that match's own clock reading |
| MatchList.LoadMatchesForPrediction | app.js:526-663 | no matches (failed or empty reply) gives the notice; no user gives the load error; otherwise one card per match from the user's predictions (none if their reply failed) |
| FormGuards.OnRegisterSubmit | app.js:1030-1044 | register is called iff password equals its confirmation, with (email, password, nome, cognome); otherwise the mismatch warning |
| FormGuards.OnLoadMatchesClick | app.js:1059-1074 | loadMatchesForPrediction is called iff both selections are non-empty, with them; a missing league is reported before a missing round |
| FormGuards.Navigate | app.js:952-1056 | Leagues, Predictions and join-league lead to the login page iff nobody is logged in, and otherwise to the leagues section, the predictions section and the join-league modal; Admin is reached only by a user whose role is 'Admin', and everyone else goes home; Home and Login always lead to their sections |

## Left out

- DOM rendering: HTML templates, `showSection`, `showAdminTab`,
  `showAlert` with its timers, bootstrap modals.
- `updateUIForLoggedInUser` is not modelled. It shows and hides the menus,
  rewrites the home call-to-action and attaches its click listener. It reads
  `currentUser.ruolo`, so it throws when the stored user text is "null".
- `callAPI` and `fetch` are foreign I/O. Replies are inputs, and the
  credentials and ids sent in requests are not modelled beyond being
  parameters.
- Locale date formatting (`formattaData`, `toLocaleDateString`). The real
  clock is a parameter.
- `PUNTEGGI`, `MESSAGGI` and `STATI_PARTITA` are never used by the modelled
  code. Scoring happens on the server.
- The rest of app.js is not part of this model: home and league pages,
  `openPredictionModal`, the player lists, the admin stubs and event wiring.
  The modal's current contents (inputs, boxes and the visibility of the
  scorer sections) are the class constructor's parameters.
- Concurrency: overlapping asynchronous calls and repeated submissions are
  not modelled.
- Number precision: integers are unbounded. Digit runs longer than a double
  can hold lose precision in JavaScript. `JsNumber.IntToString` matches
  JavaScript only below 10^21, where JavaScript switches to exponent
  notation. `formatoTempo` with a non-integer argument is floating point
  and is not modelled.
- JSON:
  - JavaScript strings can hold lone surrogates; Dafny characters cannot.
  - The decoder accepts every string escape of JSON: `\/`, hexadecimal
    digits in either case, and `\u` escapes of any code point that is not
    a surrogate. Around the strings it accepts only the array and object
    shapes `JSON.stringify` writes: no white space, no numbers, no nesting.
    A stored user must have the five keys in order. Stored text in any other
    JSON shape is modelled as an unreadable session, where the browser's
    `JSON.parse` might still accept it.
  - Because the decoder accepts more texts than `JSON.stringify` writes,
    `SubmitPrediction` also states that the text it sends is exactly
    `JSON.stringify` of the scorers.
- Users are modelled as five string fields (id, nome, cognome, email,
  ruolo), stored in that key order.
- A success reply without a user object is not modelled.
- Session.Session.CheckLoggedIn returns `Unreadable` and leaves
  `currentUser` unchanged in two cases:
  - stored text on which the source's `JSON.parse` throws;
  - the text "null": the source sets `currentUser` to null and then throws
    in `updateUIForLoggedInUser`;
  - JSON in a shape login never writes (another key order, a numeric id,
    extra fields), which the source parses, assigns to `currentUser` and
    resumes from.
- The source's throw is uncaught. `checkLoggedIn` runs first in the
  DOMContentLoaded handler (app.js:944), so the throw stops that handler
  and none of the later listeners are attached. The model does not capture
  this: after `Unreadable` it still allows `Login`, `Navigate` and the other
  handlers.
- The page's document order is taken to put every home scorer checkbox
  before every away one. index.html is not part of this model.
