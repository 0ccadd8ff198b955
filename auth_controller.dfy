/** The back end's `registerUser` and `loginUser` (`authController.js`) over the
    user collection. The collection is a map from user name to record; password
    hashing is the store's function `hash`, fixed when the store is created, and
    a password matches a record when it hashes to the stored value. */
module AuthController {
  import opened Wrappers
  import opened Registration
  import RegisterForm

  /** A stored user: the name, the stored password hash and the score (0 when the
      record is created). */
  datatype User = User(name: string, password: string, score: int)

  /** A reply body: a message, a signed token naming the user, or the user part
      of a successful score update. */
  datatype Body = Message(text: string) | Token(name: string) | ScoreReport(text: string, name: string, score: int)

  datatype Response = Response(status: nat, body: Body)

  const FillAllFields := "Please fill out all fields."
  const UserExists := "User already exists."
  const Registered := "User registered successfully"
  const NotFound := "User not found"
  const InvalidCredentials := "Invalid credentials"

  /** A request-body string field is falsy when absent or empty. */
  function OrEmpty(field: Option<string>): (s: string)
    ensures s == "" <==> field.None? || field == Some("")
  {
    if field.Some? then field.value else ""
  }

  /** The registration checks on the request body; an absent field fails the
      first check exactly as an empty one does. */
  function ValidateRegistration(name: Option<string>, password: Option<string>,
                                confirmPassword: Option<string>): (r: Option<RegistrationError>)
    ensures r == Some(EmptyField) <==>
      OrEmpty(name) == "" || OrEmpty(password) == "" || OrEmpty(confirmPassword) == ""
    ensures r == None ==> name.Some? && password.Some? && confirmPassword.Some?
    ensures r == None ==> password == confirmPassword && |password.value| >= MinPasswordLength
  {
    CheckRegistration(OrEmpty(name), OrEmpty(password), OrEmpty(confirmPassword))
  }

  /** `password` logs `name` in against `users`. */
  predicate CanLogIn(users: map<string, User>, name: string, password: string, hash: string -> string)
  {
    name in users && hash(password) == users[name].password
  }

  class UserStore {
    var users: map<string, User>
    const hash: string -> string

    /** Records are kept under their own name. */
    ghost predicate Valid()
      reads this
    {
      forall name :: name in users ==> users[name].name == name
    }

    constructor (hash: string -> string)
      ensures Valid() && users == map[] && this.hash == hash
    {
      users := map[];
      this.hash := hash;
    }

    /** `registerUser`: validate, refuse an existing name, otherwise store the
        user with the hash of the password and score 0 and reply 201. */
    method RegisterUser(name: Option<string>, password: Option<string>,
                        confirmPassword: Option<string>)
      returns (res: Response)
      requires Valid()
      modifies this
      ensures Valid()
      ensures ValidateRegistration(name, password, confirmPassword).Some? ==>
        && res == Response(400, Message(ErrorMessage(ValidateRegistration(name, password, confirmPassword).value)))
        && users == old(users)
      ensures ValidateRegistration(name, password, confirmPassword).None? && name.value in old(users) ==>
        res == Response(400, Message(UserExists)) && users == old(users)
      ensures ValidateRegistration(name, password, confirmPassword).None? && name.value !in old(users) ==>
        && res == Response(201, Message(Registered))
        && users == old(users)[name.value := User(name.value, hash(password.value), 0)]
      // The round trip: whoever registered can log in with the same password.
      ensures res.status == 201 ==> CanLogIn(users, name.value, password.value, hash)
    {
      var invalid := ValidateRegistration(name, password, confirmPassword);
      if invalid.Some? {
        return Response(400, Message(ErrorMessage(invalid.value)));
      }
      if name.value in users {
        return Response(400, Message(UserExists));
      }
      var hashedPassword := hash(password.value);
      users := users[name.value := User(name.value, hashedPassword, 0)];
      res := Response(201, Message(Registered));
    }

    /** `loginUser`: both fields present, the user known, the password matching;
        the store is only read. */
    method LoginUser(name: Option<string>, password: Option<string>)
      returns (res: Response)
      requires Valid()
      ensures OrEmpty(name) == "" || OrEmpty(password) == "" ==>
        res == Response(400, Message(FillAllFields))
      ensures OrEmpty(name) != "" && OrEmpty(password) != "" && name.value !in users ==>
        res == Response(400, Message(NotFound))
      ensures (&& OrEmpty(name) != "" && OrEmpty(password) != "" && name.value in users
               && !CanLogIn(users, name.value, password.value, hash)) ==>
        res == Response(400, Message(InvalidCredentials))
      ensures res.status == 200 <==>
        OrEmpty(name) != "" && OrEmpty(password) != "" && CanLogIn(users, name.value, password.value, hash)
      ensures res.status == 200 ==> res.body == Token(name.value)
    {
      if OrEmpty(name) == "" || OrEmpty(password) == "" {
        return Response(400, Message(FillAllFields));
      }
      if name.value !in users {
        return Response(400, Message(NotFound));
      }
      var user := users[name.value];
      var isMatch := hash(password.value) == user.password;
      if !isMatch {
        return Response(400, Message(InvalidCredentials));
      }
      res := Response(200, Token(user.name));
    }
  }

  /** The form and the server agree: a form the page would send passes the
      server's checks, and a form the page refuses is refused by the server
      with the same message. */
  lemma FormAgreesWithServer(form: RegisterForm.FormData)
    ensures var v := ValidateRegistration(Some(form.name), Some(form.password), Some(form.confirmPassword));
      match RegisterForm.HandleSubmit(form)
      case Send(body) => v == None && body.name == form.name && body.password == form.password
      case ShowError(m) => v.Some? && m == ErrorMessage(v.value)
  {
  }
}
