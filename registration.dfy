/** The three ordered registration checks, written identically in the
    registration form (`Register.js`) and in the back end's `registerUser`
    (`authController.js`): an empty field, then a password mismatch, then a
    password shorter than six characters. The first failing check decides. */
module Registration {
  import opened Wrappers

  datatype RegistrationError = EmptyField | Mismatch | TooShort

  const MinPasswordLength := 6

  function ErrorMessage(e: RegistrationError): string
  {
    match e
    case EmptyField => "Please fill out all fields."
    case Mismatch => "Passwords do not match."
    case TooShort => "Password must be at least 6 characters."
  }

  /** `None` when every check passes, else the first check that fails. */
  function CheckRegistration(name: string, password: string, confirmPassword: string)
    : (r: Option<RegistrationError>)
    ensures r == Some(EmptyField) <==> name == "" || password == "" || confirmPassword == ""
    ensures r == Some(Mismatch) <==>
      name != "" && password != "" && confirmPassword != "" && password != confirmPassword
    ensures r == Some(TooShort) <==>
      name != "" && password != "" && password == confirmPassword && |password| < MinPasswordLength
    ensures r == None <==>
      name != "" && password == confirmPassword && |password| >= MinPasswordLength
  {
    if name == "" || password == "" || confirmPassword == "" then Some(EmptyField)
    else if password != confirmPassword then Some(Mismatch)
    else if |password| < MinPasswordLength then Some(TooShort)
    else None
  }
}
