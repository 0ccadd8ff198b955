/** The non-visual logic of the game screen (`Game.js`): starting a game,
    making a move and playing again. The screen's state variables are fields of
    `Game`; the score and chances live in its `GameStatus` object. Network
    replies are inputs: the puzzle fetched from the back end (or its failure) and
    whether the score update was accepted. */
module GameView {
  import opened Wrappers
  import opened Js
  import opened Status
  import opened MoveInput

  /** The puzzle the back end relays: an image reference and its solution. */
  datatype Puzzle = Puzzle(question: string, solution: int)

  /** The body of the `PUT /api/auth/update-score` request sent after a win. */
  datatype ScoreUpdate = ScoreUpdate(username: string, newScore: int)

  const WinPoints := 10
  const MissPenalty := 2

  const StartError := "Error starting the game."
  const OutOfAttempts := "Out of attempts! Game Over."
  const UpdateError := "Error updating score."

  /** The feedback after a wrong guess that still leaves chances. */
  function TryAgain(guess: int): string
  {
    "Oops! " + IntToDecimal(guess) + " is not a correct number. Try again!"
  }

  class Game {
    var number: string            // the text in the number field
    var gameData: Option<Puzzle>  // the current puzzle, if one is loaded
    var error: Option<string>     // the message line
    var gameOver: bool
    var showResult: bool
    var loading: bool
    var isIncorrect: Option<int>  // the last wrong guess; `None` is `false`
    var username: string
    const gameStatus: GameStatus

    /** What every operation keeps: chances stay within 0..3, the two end-of-game
        flags move together, and a puzzle in play that is not over has a chance
        left. */
    ghost predicate Valid()
      reads this, gameStatus
    {
      && 0 <= gameStatus.chancesLeft <= DefaultChances
      && gameOver == showResult
      && (gameData.Some? && !gameOver ==> 0 < gameStatus.chancesLeft)
    }

    /** The screen as first shown, for the user named in the stored token. */
    constructor (username: string)
      ensures Valid() && fresh(gameStatus)
      ensures number == "" && gameData == None && error == None
      ensures !gameOver && !showResult && !loading && isIncorrect == None
      ensures this.username == username
      ensures gameStatus.score == DefaultScore && gameStatus.chancesLeft == DefaultChances
    {
      number := "";
      gameData := None;
      error := None;
      gameOver := false;
      showResult := false;
      loading := false;
      isIncorrect := None;
      this.username := username;
      gameStatus := new GameStatus.WithDefaults();
    }

    /** `handleChange`: the field's text becomes `value`. */
    method HandleChange(value: string)
      modifies this`number
      ensures number == value
    {
      number := value;
    }

    /** `startGame`, given the reply of `GET /api/game/start` (`None` when the
        request failed). Success loads the puzzle and resets score, chances and
        flags; failure only sets the error. */
    method StartGame(response: Option<Puzzle>)
      requires Valid()
      modifies this, gameStatus
      ensures Valid() && !loading
      ensures number == old(number) && isIncorrect == old(isIncorrect) && username == old(username)
      ensures response.Some? ==>
        && gameData == response && error == None && !gameOver && !showResult
        && gameStatus.score == 0 && gameStatus.chancesLeft == DefaultChances
      ensures response.None? ==>
        && error == Some(StartError)
        && gameData == old(gameData) && gameOver == old(gameOver) && showResult == old(showResult)
        && gameStatus.score == old(gameStatus.score)
        && gameStatus.chancesLeft == old(gameStatus.chancesLeft)
    {
      loading := true;
      match response {
        case Some(puzzle) =>
          gameData := Some(puzzle);
          error := None;
          gameOver := false;
          showResult := false;
          gameStatus.SetScore(0);
          gameStatus.SetChancesLeft(DefaultChances);
          loading := false;
        case None =>
          error := Some(StartError);
          loading := false;
      }
    }

    /** `makemove`. The entry is validated first; a refused entry only sets the
        error. With no puzzle loaded an accepted entry only clears the field.
        Otherwise the guess is judged (see `Judge`) and the field cleared.
        `updateSucceeded` is the outcome of the score update sent after a win. */
    method MakeMove(updateSucceeded: bool) returns (sent: Option<ScoreUpdate>)
      requires Valid()
      modifies this, gameStatus
      ensures Valid()
      ensures username == old(username) && gameData == old(gameData) && loading == old(loading)
      // A refused entry: only the message changes.
      ensures ValidateEntry(old(number)).Err? ==>
        && error == Some(EntryMessage(ValidateEntry(old(number)).error))
        && sent == None && number == old(number)
        && PlayUnchanged(old(gameStatus.score), old(gameStatus.chancesLeft),
                         old(gameOver), old(showResult), old(isIncorrect))
      // An accepted entry is always cleared.
      ensures ValidateEntry(old(number)).Ok? ==> number == ""
      // No puzzle: nothing else changes.
      ensures ValidateEntry(old(number)).Ok? && gameData.None? ==>
        && sent == None && error == old(error)
        && PlayUnchanged(old(gameStatus.score), old(gameStatus.chancesLeft),
                         old(gameOver), old(showResult), old(isIncorrect))
      // A puzzle in play: the guess is judged against its solution.
      ensures ValidateEntry(old(number)).Ok? && gameData.Some? ==>
        Judged(ValidateEntry(old(number)).value, updateSucceeded, sent,
               old(gameStatus.score), old(gameStatus.chancesLeft), old(gameOver), old(showResult))
    {
      sent := None;
      var entry := ValidateEntry(number);
      if entry.Err? {
        error := Some(EntryMessage(entry.error));
        return;
      }
      if gameData.Some? {
        sent := Judge(entry.value, updateSucceeded);
      }
      number := "";
    }

    /** Score, chances, the end-of-game flags and the wrong-guess mark are as given. */
    ghost predicate PlayUnchanged(score0: int, chances0: int, over0: bool, shown0: bool,
                                  incorrect0: Option<int>)
      reads this, gameStatus
    {
      && gameStatus.score == score0 && gameStatus.chancesLeft == chances0
      && gameOver == over0 && showResult == shown0 && isIncorrect == incorrect0
    }

    /** The outcome of judging `guess` against the loaded puzzle, from score
        `score0`, chances `chances0` and flags `over0`/`shown0`. A right guess ends
        the game with `WinPoints` more and sends the new score for this user; a
        wrong one costs a chance (never below zero) and `MissPenalty` points, and
        ends the game exactly when no chance is left. */
    ghost predicate Judged(guess: int, updateSucceeded: bool, sent: Option<ScoreUpdate>,
                           score0: int, chances0: int, over0: bool, shown0: bool)
      reads this, gameStatus
      requires gameData.Some?
    {
      if guess == gameData.value.solution then
        && gameOver && showResult && isIncorrect == None
        && gameStatus.score == score0 + WinPoints
        && gameStatus.chancesLeft == chances0
        && sent == Some(ScoreUpdate(username, score0 + WinPoints))
        && error == (if updateSucceeded then None else Some(UpdateError))
      else
        && sent == None
        && isIncorrect == Some(guess)
        && gameStatus.chancesLeft == FlooredDecrement(chances0)
        && gameStatus.score == score0 - MissPenalty
        && (gameStatus.chancesLeft <= 0 ==> gameOver && showResult && error == Some(OutOfAttempts))
        && (0 < gameStatus.chancesLeft ==>
              gameOver == over0 && showResult == shown0 && error == Some(TryAgain(guess)))
    }

    /** The part of `makemove` that runs when a puzzle is loaded and the entry
        parsed to `guess`. */
    method Judge(guess: int, updateSucceeded: bool) returns (sent: Option<ScoreUpdate>)
      requires Valid() && gameData.Some?
      modifies this`gameOver, this`showResult, this`error, this`isIncorrect, gameStatus
      ensures Valid()
      ensures Judged(guess, updateSucceeded, sent,
                     old(gameStatus.score), old(gameStatus.chancesLeft), old(gameOver), old(showResult))
    {
      sent := None;
      var solution := gameData.value.solution;
      if guess == solution {
        gameOver := true;
        showResult := true;
        error := None;
        gameStatus.IncrementScore(WinPoints);
        isIncorrect := None;
        var newScore := gameStatus.GetScore();
        sent := Some(ScoreUpdate(username, newScore));
        if !updateSucceeded {
          error := Some(UpdateError);
        }
      } else {
        isIncorrect := Some(guess);
        gameStatus.DecrementChances();
        gameStatus.DecrementScore(MissPenalty);
        var chances := gameStatus.GetChancesLeft();
        if chances <= 0 {
          gameOver := true;
          showResult := true;
          error := Some(OutOfAttempts);
        } else {
          error := Some(TryAgain(guess));
        }
      }
    }

    /** `handlePlayAgain`: clear the field, the puzzle and the flags, then
        `startGame` with the given reply. */
    method HandlePlayAgain(response: Option<Puzzle>)
      requires Valid()
      modifies this, gameStatus
      ensures Valid() && !loading
      ensures number == "" && isIncorrect == None && username == old(username)
      ensures !gameOver && !showResult
      ensures response.Some? ==>
        && gameData == response && error == None
        && gameStatus.score == 0 && gameStatus.chancesLeft == DefaultChances
      ensures response.None? ==>
        && gameData == None && error == Some(StartError)
        && gameStatus.score == old(gameStatus.score)
        && gameStatus.chancesLeft == old(gameStatus.chancesLeft)
    {
      number := "";
      gameData := None;
      gameOver := false;
      showResult := false;
      isIncorrect := None;
      StartGame(response);
    }
  }

  /** A guess text that is accepted and differs from the puzzle's solution. */
  predicate IsMiss(entry: string, p: Puzzle)
  {
    ValidateEntry(entry).Ok? && ValidateEntry(entry).value != p.solution
  }

  /** A guess text that is accepted and equals the puzzle's solution. */
  predicate IsHit(entry: string, p: Puzzle)
  {
    ValidateEntry(entry).Ok? && ValidateEntry(entry).value == p.solution
  }

  /** From a freshly started game, three wrong guesses end it: no chance left,
      score -6, the out-of-attempts message, and no score sent. */
  method ThreeMisses(p: Puzzle, first: string, second: string, third: string)
    returns (score: int, chances: int, over: bool, message: Option<string>)
    requires IsMiss(first, p) && IsMiss(second, p) && IsMiss(third, p)
    ensures score == -6 && chances == 0 && over && message == Some(OutOfAttempts)
  {
    var game := new Game("player");
    game.StartGame(Some(p));
    game.HandleChange(first);
    var _ := game.MakeMove(true);
    assert !game.gameOver && game.gameStatus.chancesLeft == 2;
    game.HandleChange(second);
    var _ := game.MakeMove(true);
    assert !game.gameOver && game.gameStatus.chancesLeft == 1;
    game.HandleChange(third);
    var _ := game.MakeMove(true);
    score := game.gameStatus.GetScore();
    chances := game.gameStatus.GetChancesLeft();
    over := game.gameOver;
    message := game.error;
  }

  /** From a freshly started game, a wrong guess and then the right one win with
      score 8 (−2 + 10), one chance spent, and send that score for the user. */
  method MissThenHit(p: Puzzle, user: string, miss: string, hit: string)
    returns (score: int, chances: int, over: bool, sent: Option<ScoreUpdate>)
    requires IsMiss(miss, p) && IsHit(hit, p)
    ensures score == 8 && chances == 2 && over
    ensures sent == Some(ScoreUpdate(user, 8))
  {
    var game := new Game(user);
    game.StartGame(Some(p));
    game.HandleChange(miss);
    var _ := game.MakeMove(true);
    game.HandleChange(hit);
    sent := game.MakeMove(true);
    score := game.gameStatus.GetScore();
    chances := game.gameStatus.GetChancesLeft();
    over := game.gameOver;
  }
}
