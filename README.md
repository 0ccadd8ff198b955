# BananaGa in Dafny

A model of the logic of the Banana guessing game: a player registers and logs
in, starts a game that shows a puzzle whose answer is a digit, and guesses. A
right guess is worth 10 points and ends the game; a wrong one costs a chance and
2 points, and the game ends when the three chances are used up. After a win the
screen sends the new score to the back end, which overwrites the stored score.

Modules, one per concern (some gather several source files, and `Js` models
the JavaScript built-ins the code calls; the `bananafull/` copies of `Game.js`,
`GameStatus.js` and `Register.js` are the same code and are covered by the same
members; their line numbers are cited for some rows below):

- `Status` (`game_status.dfy`): the `GameStatus` class with its two mutable
  fields `score` and `chancesLeft`, its getters, setters, the floored
  `decrementChances` and the unbounded score changes.
- `GameView` (`game_view.dfy`): the screen state of `Game.js` as the class
  `Game` (the entered text, the loaded puzzle, the message line, the end-of-game
  flags and a `GameStatus`), with `startGame`, `makemove`, `handleChange` and
  `handlePlayAgain`. The puzzle fetched from the back end (or the failure to
  fetch one) and the outcome of the score update are method inputs; the score
  update that `makemove` sends is its result.
- `MoveInput` (`move_input.dfy`): the guess validation of `makemove` (text
  field) and of the back end's `makeMove` (JSON body), including the quirk that
  the JSON number `0` is refused as missing because it is falsy.
- `Js` (`js.dfy`): the JavaScript behaviour those validators rely on:
  truthiness, `String(v)` for integer-valued numbers (the plain numeral below
  10^21 in magnitude, the exponent form `d.ddde+K` from there on) and
  `parseInt(s, 10)` (leading white space, one sign, the longest run of digits,
  `NaN` as `None`), with the proofs that `parseInt` reads back a plain numeral
  even when non-digits follow, and that on an exponent form it reads only the
  signed leading digit.
- `Registration`, `RegisterForm` (`registration.dfy`, `register_form.dfy`): the
  three ordered registration checks shared by the form and the server, and the
  form's field update and submit decision.
- `AuthController`, `AuthRoutes` (`auth_controller.dfy`, `auth_routes.dfy`): the
  user collection as the class `UserStore` over a `map` from name to record,
  with registration (insert only when the name is absent, store the password's
  hash), login (read only) and the score update (overwrite one record).

Behaviour of the code the model keeps:

- A game that is over is not guarded in `makemove`; only the screen hides the
  guess button. `Game.MakeMove` therefore has no precondition on the flags.
- An unknown user at login gets status 400 "User not found", not 404.
- The stored score has no lower bound; a negative number sent by a client is
  stored as is.
- The score update refuses a missing `newScore` (`undefined`) before its type
  check, so `null` is refused as "not a number" and `0` is accepted.

## Model

| member | source | states |
|---|---|---|
| `Status.GameStatus.constructor` | bananaFrontend/src/components/GameStatus.js:4-7 | the new object holds exactly the given score and chances |
| `Status.GameStatus.WithDefaults` | bananafull/src/components/GameStatus.js:3-6 | `new GameStatus()` starts at score 0 and 3 chances |
| `Status.GameStatus.GetScore` | bananaFrontend/src/components/GameStatus.js:10-12 | returns the score and changes nothing |
| `Status.GameStatus.SetScore` | bananaFrontend/src/components/GameStatus.js:15-17 | the score becomes the argument, without range check; chances untouched |
| `Status.GameStatus.GetChancesLeft` | bananafull/src/components/GameStatus.js:19-21 | returns the chances and changes nothing |
| `Status.GameStatus.SetChancesLeft` | bananaFrontend/src/components/GameStatus.js:25-27 | the chances become the argument, without range check; score untouched |
| `Status.GameStatus.DecrementChances` | bananaFrontend/src/components/GameStatus.js:30-34 | chances become `FlooredDecrement` of the old value; score untouched |
| `Status.GameStatus.IncrementScore` | bananaFrontend/src/components/GameStatus.js:37-39 | the score grows by exactly the argument; chances untouched |
| `Status.GameStatus.DecrementScore` | bananaFrontend/src/components/GameStatus.js:42-44 | the score drops by exactly the argument; chances untouched |
| `Status.FlooredDecrement` | bananaFrontend/src/components/GameStatus.js:30-34 | one less while positive, unchanged otherwise; a non-negative count never becomes negative |
| `Status.RepeatedDecrement` | bananafull/src/components/GameStatus.js:29-33 | k decrements from c >= 0 leave max(c - k, 0): the count stops at zero |
| `Status.IncrementThenDecrement` | bananafull/src/components/GameStatus.js:36-43 | adding then subtracting the same value restores the score and leaves the chances |
| `Status.NoScoreFloor` | bananaFrontend/src/components/GameStatus.js:42-44 | from the defaults, four 2-point losses and four decrements give score -8 (no floor) and 0 chances (floor) |
| `Js.NatToDecimal` | bananaFrontend/src/components/Game.js:101 | the numeral printed for a guess is non-empty, all digits, one digit exactly for n < 10 |
| `Js.IntToDecimal` | bananaFrontend/src/components/Game.js:101 | the plain numeral of n (as in the try-again message) is non-empty, starts with `-` exactly for negative n, and is all digits for n >= 0 |
| `Js.NumberToString` | bananaBackend/controllers/gameController.js:40 | `String(n)` starts with `-` exactly for negative n, and is the plain numeral exactly as `IntToDecimal` while abs(n) < 10^21 |
| `Js.ExponentForm` | bananaBackend/controllers/gameController.js:40 | the exponent form of m >= 10 starts with m's leading digit, followed by `.` or `e` |
| `Js.LeadingDigit` | bananaBackend/controllers/gameController.js:40 | the leading digit is a single digit, non-zero for a positive number |
| `Js.LeadingDigitFirst` | bananaBackend/controllers/gameController.js:40 | the plain numeral of m starts with `LeadingDigit(m)` |
| `Js.TrimStartDropsWhitespace` | bananaBackend/controllers/gameController.js:40 | `parseInt`'s skipping of leading white space removes a prefix made of white space only |
| `Js.ParseInt` | bananaBackend/controllers/gameController.js:40 | `parseInt(s, 10)` is NaN exactly when no digit follows the white space and sign; a negative result needs a leading `-` |
| `Js.ParseDecimalPrefix` | bananaFrontend/src/components/Game.js:63 | `parseInt` of a typed plain numeral of n followed by a rest that does not start with a digit is n (`"7abc"` gives 7) |
| `Js.ExponentSplit` | bananaBackend/controllers/gameController.js:40 | from 10^21 in magnitude, `String(n)` is the plain numeral of n's signed leading digit followed by a non-digit |
| `Js.ParseNumberString` | bananaBackend/controllers/gameController.js:40 | `parseInt(String(n), 10)` is n while abs(n) < 10^21, and the signed leading digit of n from there on |
| `MoveInput.CheckDigit` | bananaBackend/controllers/gameController.js:41-43 | accepts exactly a parsed value in 0..9, returning it; NaN and others are out of range |
| `MoveInput.ValidateEntry` | bananaFrontend/src/components/Game.js:61-67 | empty text is "missing" exactly; accepted exactly when parseInt gives 0..9, returning that value |
| `MoveInput.ValidateBody` | bananaBackend/controllers/gameController.js:35-43 | a falsy body value is "missing" exactly; the value is accepted exactly when it is truthy and parseInt reads a digit 0..9 from its string form, and that digit is returned |
| `MoveInput.MakeMove` | bananaBackend/controllers/gameController.js:32-48 | forwards exactly the validated digit (0..9); otherwise 400 with the check's message |
| `MoveInput.NumericBody` | bananaBackend/controllers/gameController.js:35 | the JSON number 0 is refused as missing, 1..9 accepted as themselves, n >= 10^21 accepted as its leading digit, every other number out of range |
| `MoveInput.StringBody` | bananafull/src/components/Game.js:56-62 | a digit's numeral followed by non-digits is accepted as that digit by both validators (the string `"0"` passes) |
| `MoveInput.EntryAgreesWithBody` | bananaFrontend/src/components/Game.js:61-67 | the screen and the back end accept and refuse the same texts for the same reasons |
| `GameView.Game.constructor` | bananaFrontend/src/components/Game.js:8-21 | empty field, no puzzle, no message, flags false, a fresh `GameStatus` at 0 and 3 |
| `GameView.Game.HandleChange` | bananaFrontend/src/components/Game.js:109-111 | the field's text becomes the typed value |
| `GameView.Game.StartGame` | bananaFrontend/src/components/Game.js:40-57 | success loads the puzzle, clears message and flags, resets to 0 and 3; failure sets only the start error; the invariant holds |
| `GameView.Game.MakeMove` | bananaFrontend/src/components/Game.js:59-107 | a refused entry sets only the message and keeps the text; an accepted one is cleared; with no puzzle nothing else changes; otherwise the guess is judged |
| `GameView.Game.Judge` | bananaFrontend/src/components/Game.js:69-104 | right: game over, +10, chances kept, the post-increment score sent for the user; wrong: floored chance loss, -2, game over with "Out of attempts!" exactly when no chance is left, else the try-again text |
| `GameView.Game.HandlePlayAgain` | bananaFrontend/src/components/Game.js:113-121 | field, flags and mark cleared; then as `StartGame`, with no puzzle left when the fetch fails |
| `GameView.ThreeMisses` | bananafull/src/components/Game.js:84-94 | from a fresh start three wrong guesses end the game with 0 chances, score -6 and the out-of-attempts message |
| `GameView.MissThenHit` | bananafull/src/components/Game.js:64-78 | from a fresh start a miss then a hit end the game with score 8, 2 chances, and send 8 for the user |
| `Registration.CheckRegistration` | bananaFrontend/src/components/Register.js:24-35 | each outcome in both directions: empty field first, then mismatch, then length < 6; passes exactly when all hold |
| `RegisterForm.HandleChange` | bananaFrontend/src/components/Register.js:14-16 | the named field takes the value and the two others are unchanged |
| `RegisterForm.HandleSubmit` | bananaFrontend/src/components/Register.js:24-43 | sends exactly when the checks pass, with a body of exactly the three fields; otherwise the first failing check's message |
| `RegisterForm.FilledFormSends` | bananafull/src/components/Register.js:13-38 | typing a name and the same 6+ character password twice into an empty form makes it send those values |
| `AuthController.ValidateRegistration` | bananaBackend/controllers/authController.js:11-22 | an absent field fails like an empty one; passing implies all fields present, equal passwords, length >= 6 |
| `AuthController.UserStore.RegisterUser` | bananaBackend/controllers/authController.js:7-47 | invalid body: 400 with the check's message; existing name: 400, store unchanged; else exactly one record added with the hashed password and score 0, 201, and that user can then log in |
| `AuthController.UserStore.LoginUser` | bananaBackend/controllers/authController.js:50-84 | missing field, unknown user and hash mismatch each give their 400; 200 with a token for the user exactly when present and matching; nothing changes |
| `AuthController.FormAgreesWithServer` | bananaBackend/controllers/authController.js:11-22 | a form the page sends passes the server's checks; a form it refuses is refused by the server with the same message |
| `AuthRoutes.ValidateScoreUpdate` | bananaBackend/routes/authRoutes.js:23-32 | missing exactly for a falsy name or undefined score; not-a-number exactly for a present non-number; accepts 0 |
| `AuthRoutes.UpdateScore` | bananaBackend/routes/authRoutes.js:18-62 | 400 or 404 leave the store unchanged; success overwrites the one user's score and echoes name and score; no other record and no key changes |
| `AuthRoutes.SentUpdateAccepted` | bananaFrontend/src/components/Game.js:81-84 | the update sent after a win passes validation whenever the user name is non-empty, for any score |

## Left out

- Rendering, navigation, the logout modal and `localStorage`: the user name decoded from the stored token is the `Game` constructor's argument; a failed decode redirects and is not modelled.
- Network calls are inputs: the reply of `GET /api/game/start` (or its failure) for `StartGame`/`HandlePlayAgain`, and the outcome of the score update for `MakeMove`. The back end's `startGame`, `getResult` and the puzzle request in `makeMove` are proxies to an external service; `MoveInput.MakeMove` returns the digit it would forward.
- The 500 "Server error" replies, raised when the database or hashing fails, are not modelled.
- Password hashing is a deterministic function fixed when the `UserStore` is built, and `bcrypt.compare` is equality of hashes; bcrypt's salt and cost factor are not modelled. The login token is represented by the user name it carries; its id, signature and one-hour expiry are not modelled.
- The database: the collection is a map keyed by name. The schema's `String` type for `score` and its casting are not modelled; scores are integers.
- JSON bodies: numbers are integers only (`3.5` is not represented), and arrays and objects are not represented. The register and login fields and update-score's `username` are absent-or-string; a numeric `username`, which the database would cast to a string before the lookup, is not represented.
- `Registration.CheckRegistration`: `password.length` counts UTF-16 code units in JavaScript; the model counts characters, which differs for characters outside the Basic Multilingual Plane.
- `Js.NumberToString`: a JSON number is taken as an exact integer. Above 2^53 JavaScript prints the shortest digits that round-trip to the stored double, which can differ from the exact integer in the low digits; from 10^21 on even the leading digit can differ (`String(1e23)` is `"1e+23"`, while the double nearest 10^23 is below it). The model prints the exact integer's digits.
- `MoveInput.NumericBody`: for a number of magnitude at least 10^21 the accepted digit is the exact integer's leading digit; for the rare values where the double's shortest form has another leading digit, JavaScript accepts that digit instead.
- `Js.ParseInt`: exact for decimal digits of any length; JavaScript's loss of precision above 2^53 is not modelled (it cannot bring a value into 0..9).
- `GameView.Game.Judge`: the puzzle's solution is an integer; a non-number solution, which `===` would never match, is not represented.
- The "Correct!" banner shown after a last wrong guess of 0 (a display consequence of `isIncorrect` being 0) is rendering and is not modelled; `isIncorrect` is kept as the guessed value.
- Register.js's handling of the server's reply (storing a token, navigating, showing the server's message or "Registration failed.") is network and navigation plumbing.
- `RegisterForm.HandleChange`: only the form's three inputs are represented; an event naming another key would add that key.
- `Login.js`, the Express and React route tables, the database connection and the `loading` flag's effect on the button are not part of this model; awaited calls are treated as sequential steps.
