/** The login page: a form of user name and password, checked for blanks in
    the browser before it is posted to `/signin`. */
module LoginForm {
  import opened Wrappers
  import opened Text
  import opened Forms

  datatype Field = Name | Password

  /** `formData`. */
  datatype LoginData = LoginData(name: string, password: string)

  const Blank: LoginData := LoginData("", "")

  function Get(d: LoginData, f: Field): string {
    match f
    case Name => d.name
    case Password => d.password
  }

  /** `{ ...prevState, [name]: value }`: only the named field changes. */
  function Change(d: LoginData, f: Field, value: string): (r: LoginData)
    ensures Get(r, f) == value
    ensures forall g :: g != f ==> Get(r, g) == Get(d, g)
  {
    match f
    case Name => d.(name := value)
    case Password => d.(password := value)
  }

  /** The form passes both checks; the password has no length rule here. */
  predicate Accepts(d: LoginData) {
    !AllSpace(d.name) && d.password != []
  }

  /** The field fails its check. */
  predicate Fails(d: LoginData, f: Field) {
    match f
    case Name => AllSpace(d.name)
    case Password => d.password == []
  }

  /** The message a failing field shows. */
  function Message(f: Field): string {
    match f
    case Name => "name is required"
    case Password => "Password is required"
  }

  /** The errors `validateForm` reports. */
  function LoginErrors(d: LoginData): (r: map<Field, string>)
    ensures Name in r <==> AllSpace(d.name)
    ensures Name in r ==> r[Name] == "name is required"
    ensures Password in r <==> d.password == []
    ensures Password in r ==> r[Password] == "Password is required"
    ensures r == map[] <==> Accepts(d)
  {
    var r := map f | f in {Name, Password} && Fails(d, f) :: Message(f);
    assert r == map[] <==> Accepts(d) by {
      if r == map[] {
        assert Name !in r && Password !in r;
      }
    }
    r
  }

  /** `validateForm`: fills the error object one field at a time. */
  method ValidateForm(d: LoginData) returns (errors: map<Field, string>)
    ensures errors == LoginErrors(d)
  {
    var nameBlank := TrimsToEmpty(d.name);
    errors := map[];
    if nameBlank {
      errors := errors[Name := "name is required"];
    }
    if d.password == [] {
      errors := errors[Password := "Password is required"];
    }
    assert forall f :: f in errors <==> Fails(d, f);
  }

  /** The `Login` component's state. */
  class LoginPage {
    var formData: LoginData
    var errors: map<Field, string>
    var isLoading: bool
    var apiError: string

    constructor ()
      ensures formData == Blank && errors == map[] && !isLoading && apiError == ""
    {
      formData, errors, isLoading, apiError := Blank, map[], false, "";
    }

    /** `handleChange`: typing into one input. */
    method HandleChange(field: Field, value: string)
      modifies this
      ensures formData == Change(old(formData), field, value)
      ensures errors == ClearError(old(errors), field)
      ensures isLoading == old(isLoading) && apiError == old(apiError)
    {
      formData := Change(formData, field, value);
      errors := ClearError(errors, field);
    }

    /** `handleSubmit`: the form is posted only when it passes validation;
        the result says whether it was posted and whether the page moved on
        to the dashboard (after storing the token, which is not modelled). */
    method HandleSubmit(reply: Reply) returns (sent: bool, navigated: bool)
      modifies this
      ensures sent <==> Accepts(old(formData))
      ensures navigated <==> sent && Succeeded(reply)
      ensures formData == old(formData)
      ensures !sent ==> errors == LoginErrors(old(formData)) && isLoading == old(isLoading) && apiError == old(apiError)
      ensures sent ==> errors == old(errors) && !isLoading
      ensures sent ==> apiError == if Succeeded(reply) then "" else FailureMessage(reply, "Login failed")
    {
      var found := ValidateForm(formData);
      if found == map[] {
        sent := true;
        isLoading := true;
        apiError := "";
        navigated := Succeeded(reply);
        if !navigated {
          apiError := FailureMessage(reply, "Login failed");
        }
        isLoading := false;
      } else {
        sent, navigated := false, false;
        errors := found;
      }
    }
  }
}
