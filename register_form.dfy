/** The registration form (`Register.js`): the field update and the submit
    handler's decision to show an error or send the request. */
module RegisterForm {
  import opened Wrappers
  import opened Registration

  datatype Field = Name | Password | ConfirmPassword

  /** The form's state `{name, password, confirmPassword}`. */
  datatype FormData = FormData(name: string, password: string, confirmPassword: string)

  const EmptyForm := FormData("", "", "")

  function Get(form: FormData, field: Field): string
  {
    match field
    case Name => form.name
    case Password => form.password
    case ConfirmPassword => form.confirmPassword
  }

  /** `handleChange`: `{...formData, [field]: value}`. */
  function HandleChange(form: FormData, field: Field, value: string): (r: FormData)
    ensures Get(r, field) == value
    ensures forall other :: other != field ==> Get(r, other) == Get(form, other)
  {
    match field
    case Name => form.(name := value)
    case Password => form.(password := value)
    case ConfirmPassword => form.(confirmPassword := value)
  }

  /** The JSON body of `POST /api/auth/register`. */
  datatype RegisterBody = RegisterBody(name: string, password: string, confirmPassword: string)

  /** What `handleSubmit` does: show an error and stop, or send the request. */
  datatype Submission = ShowError(message: string) | Send(body: RegisterBody)

  function HandleSubmit(form: FormData): (r: Submission)
    ensures r.Send? <==> CheckRegistration(form.name, form.password, form.confirmPassword) == None
    ensures r.Send? ==> r.body == RegisterBody(form.name, form.password, form.confirmPassword)
    ensures r.ShowError? ==>
      r.message == ErrorMessage(CheckRegistration(form.name, form.password, form.confirmPassword).value)
  {
    match CheckRegistration(form.name, form.password, form.confirmPassword)
    case Some(e) => ShowError(ErrorMessage(e))
    case None => Send(RegisterBody(form.name, form.password, form.confirmPassword))
  }

  /** Typing the same password of at least six characters into both password
      fields of an empty form, and a name, is enough for the form to send. */
  lemma {:induction false} FilledFormSends(name: string, password: string)
    requires name != "" && |password| >= MinPasswordLength
    ensures
      var form := HandleChange(HandleChange(HandleChange(EmptyForm, Name, name),
                                            Password, password), ConfirmPassword, password);
      HandleSubmit(form) == Send(RegisterBody(name, password, password))
  {
    var f1 := HandleChange(EmptyForm, Name, name);
    var f2 := HandleChange(f1, Password, password);
    var f3 := HandleChange(f2, ConfirmPassword, password);
    assert f3 == FormData(name, password, password);
  }
}
