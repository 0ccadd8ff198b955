/** The `PUT /update-score` handler (`authRoutes.js`): validate the body, find
    the user, overwrite the score. */
module AuthRoutes {
  import opened Wrappers
  import opened Js
  import opened AuthController
  import GameView

  datatype ScoreError = MissingInput | NotANumber

  const ProvideBoth := "Please provide both username and new score."
  const MustBeNumber := "The score must be a number."
  const UserNotFound := "User not found."
  const ScoreUpdated := "Score updated successfully."

  function ScoreErrorMessage(e: ScoreError): string
  {
    match e
    case MissingInput => ProvideBoth
    case NotANumber => MustBeNumber
  }

  /** The handler's two checks in order: a falsy `username` or an `undefined`
      `newScore`, then a `newScore` whose `typeof` is not `"number"`. Only
      `undefined` counts as missing, so `0` and `null` pass the first check. */
  function ValidateScoreUpdate(username: Option<string>, newScore: JsonValue): (r: Result<int, ScoreError>)
    ensures r == Err(MissingInput) <==> OrEmpty(username) == "" || newScore == Missing
    ensures r == Err(NotANumber) <==> OrEmpty(username) != "" && newScore != Missing && !newScore.Num?
    ensures r.Ok? <==> OrEmpty(username) != "" && newScore.Num?
    ensures r.Ok? ==> r.value == newScore.n
  {
    if OrEmpty(username) == "" || newScore == Missing then Err(MissingInput)
    else if !newScore.Num? then Err(NotANumber)
    else Ok(newScore.n)
  }

  /** The handler: a 400 for a refused body, a 404 for an unknown user, else the
      user's score becomes `newScore` (replaced, not added to), no other record
      changes, and the reply echoes the name and the new score. */
  method UpdateScore(store: UserStore, username: Option<string>, newScore: JsonValue)
    returns (res: Response)
    requires store.Valid()
    modifies store
    ensures store.Valid()
    ensures ValidateScoreUpdate(username, newScore).Err? ==>
      && res == Response(400, Message(ScoreErrorMessage(ValidateScoreUpdate(username, newScore).error)))
      && store.users == old(store.users)
    ensures ValidateScoreUpdate(username, newScore).Ok? && username.value !in old(store.users) ==>
      res == Response(404, Message(UserNotFound)) && store.users == old(store.users)
    ensures ValidateScoreUpdate(username, newScore).Ok? && username.value in old(store.users) ==>
      var name := username.value;
      && store.users == old(store.users)[name := old(store.users)[name].(score := newScore.n)]
      && res == Response(200, ScoreReport(ScoreUpdated, name, newScore.n))
    // Whatever happens, the set of users stays the same and only the named user may change.
    ensures store.users.Keys == old(store.users).Keys
    ensures forall other :: other in old(store.users) && Some(other) != username ==>
      store.users[other] == old(store.users)[other]
  {
    var valid := ValidateScoreUpdate(username, newScore);
    if valid.Err? {
      return Response(400, Message(ScoreErrorMessage(valid.error)));
    }
    var name := username.value;
    if name !in store.users {
      return Response(404, Message(UserNotFound));
    }
    var user := store.users[name];
    user := user.(score := valid.value);
    store.users := store.users[name := user];
    res := Response(200, ScoreReport(ScoreUpdated, user.name, user.score));
  }

  /** The update the game screen sends after a win always passes validation
      unless the screen has no user name, whatever the score, 0 and negative
      scores included. */
  lemma SentUpdateAccepted(update: GameView.ScoreUpdate)
    ensures ValidateScoreUpdate(Some(update.username), Num(update.newScore)) ==
      if update.username == "" then Err(MissingInput) else Ok(update.newScore)
  {
  }
}
