/** The sign-up page: a form of name, e-mail address and password, validated
    in the browser before it is posted to `/signup`. */
module SignUpForm {
  import opened Wrappers
  import opened Text
  import opened Forms

  datatype Field = Name | Email | Password

  /** `formData`. */
  datatype SignUpData = SignUpData(name: string, email: string, password: string)

  /** The browser-side password rule, stricter than the server's. */
  const MinLength: nat := 6

  const Blank: SignUpData := SignUpData("", "", "")

  function Get(d: SignUpData, f: Field): string {
    match f
    case Name => d.name
    case Email => d.email
    case Password => d.password
  }

  /** `{ ...prevState, [name]: value }`: only the named field changes. */
  function Change(d: SignUpData, f: Field, value: string): (r: SignUpData)
    ensures Get(r, f) == value
    ensures forall g :: g != f ==> Get(r, g) == Get(d, g)
  {
    match f
    case Name => d.(name := value)
    case Email => d.(email := value)
    case Password => d.(password := value)
  }

  /** No white-space character in `s` (the class `\S`). */
  predicate NoSpace(s: string) {
    forall i :: 0 <= i < |s| ==> !IsSpace(s[i])
  }

  /** `\S+@\S+\.\S+` matches `s` with its `@` at `at` and its `.` at `dot`. */
  predicate EmailMatchAt(s: string, at: int, dot: int) {
    && 1 <= at && at + 2 <= dot && dot + 1 < |s|
    && !IsSpace(s[at - 1]) && s[at] == '@'
    && NoSpace(s[at + 1..dot])
    && s[dot] == '.' && !IsSpace(s[dot + 1])
  }

  /** `/\S+@\S+\.\S+/.test(s)`: the pattern matches somewhere in `s`. */
  predicate EmailLike(s: string) {
    exists at, dot | 0 <= at < |s| && 0 <= dot < |s| :: EmailMatchAt(s, at, dot)
  }

  /** Every `local@domain.suffix` made of non-empty parts without white space
      passes the e-mail check. */
  lemma EmailOfParts(local: string, domain: string, suffix: string)
    requires local != [] && domain != [] && suffix != []
    requires NoSpace(local) && NoSpace(domain) && NoSpace(suffix)
    ensures EmailLike(local + ['@'] + domain + ['.'] + suffix)
  {
    var s := local + ['@'] + domain + ['.'] + suffix;
    var at, dot := |local|, |local| + 1 + |domain|;
    assert s[at - 1] == local[|local| - 1];
    assert s[at + 1..dot] == domain;
    assert s[dot + 1] == suffix[0];
    assert EmailMatchAt(s, at, dot);
  }

  /** A passing address has an `@` and a `.` in it. */
  lemma EmailNeedsAtAndDot(s: string)
    ensures EmailLike(s) ==> '@' in s && '.' in s
  {
    if EmailLike(s) {
      var at, dot :| 0 <= at < |s| && 0 <= dot < |s| && EmailMatchAt(s, at, dot);
      assert s[at] in s && s[dot] in s;
    }
  }

  /** The form passes every check. */
  predicate Accepts(d: SignUpData) {
    !AllSpace(d.name) && !AllSpace(d.email) && EmailLike(d.email) && |d.password| >= MinLength
  }

  /** The field fails its check. */
  predicate Fails(d: SignUpData, f: Field) {
    match f
    case Name => AllSpace(d.name)
    case Email => AllSpace(d.email) || !EmailLike(d.email)
    case Password => |d.password| < MinLength
  }

  /** The message a failing field shows. */
  function Message(d: SignUpData, f: Field): string {
    match f
    case Name => "Name is required"
    case Email => if AllSpace(d.email) then "Email is required" else "Email is invalid"
    case Password => if d.password == [] then "Password is required" else "Password must be at least 6 characters"
  }

  /** The errors `validateForm` reports: at most one message per field. */
  function SignUpErrors(d: SignUpData): (r: map<Field, string>)
    ensures Name in r <==> AllSpace(d.name)
    ensures Name in r ==> r[Name] == "Name is required"
    ensures AllSpace(d.email) ==> Email in r && r[Email] == "Email is required"
    ensures !AllSpace(d.email) && !EmailLike(d.email) ==> Email in r && r[Email] == "Email is invalid"
    ensures !AllSpace(d.email) && EmailLike(d.email) ==> Email !in r
    ensures d.password == [] ==> Password in r && r[Password] == "Password is required"
    ensures 0 < |d.password| < MinLength ==> Password in r && r[Password] == "Password must be at least 6 characters"
    ensures |d.password| >= MinLength ==> Password !in r
    ensures r == map[] <==> Accepts(d)
  {
    var r := map f | f in {Name, Email, Password} && Fails(d, f) :: Message(d, f);
    assert r == map[] <==> Accepts(d) by {
      if r == map[] {
        assert Name !in r && Email !in r && Password !in r;
      }
    }
    r
  }

  /** `validateForm`: fills the error object one field at a time. */
  method ValidateForm(d: SignUpData) returns (errors: map<Field, string>)
    ensures errors == SignUpErrors(d)
  {
    var nameBlank := TrimsToEmpty(d.name);
    var emailBlank := TrimsToEmpty(d.email);
    var emailMatches := EmailLike(d.email);
    errors := map[];
    if nameBlank {
      errors := errors[Name := "Name is required"];
    }
    if emailBlank {
      errors := errors[Email := "Email is required"];
    } else if !emailMatches {
      errors := errors[Email := "Email is invalid"];
    }
    if d.password == [] {
      errors := errors[Password := "Password is required"];
    } else if |d.password| < MinLength {
      errors := errors[Password := "Password must be at least 6 characters"];
    }
    assert forall f :: f in errors <==> Fails(d, f);
  }

  /** The `SignUp` component's state. */
  class SignUpPage {
    var formData: SignUpData
    var errors: map<Field, string>
    var isLoading: bool
    var apiError: string

    constructor ()
      ensures formData == Blank && errors == map[] && !isLoading && apiError == ""
    {
      formData, errors, isLoading, apiError := Blank, map[], false, "";
    }

    /** `handleChange`: typing into one input. */
    method HandleChange(field: Field, value: string)
      modifies this
      ensures formData == Change(old(formData), field, value)
      ensures errors == ClearError(old(errors), field)
      ensures isLoading == old(isLoading) && apiError == old(apiError)
    {
      formData := Change(formData, field, value);
      errors := ClearError(errors, field);
    }

    /** `handleSubmit`: the form is posted only when it passes validation;
        `reply` is how the request ended, and the result says whether the
        form was posted and whether the page moved on to the login page. */
    method HandleSubmit(reply: Reply) returns (sent: bool, navigated: bool)
      modifies this
      ensures sent <==> Accepts(old(formData))
      ensures navigated <==> sent && Succeeded(reply)
      ensures formData == old(formData)
      ensures !sent ==> errors == SignUpErrors(old(formData)) && isLoading == old(isLoading) && apiError == old(apiError)
      ensures sent ==> errors == old(errors) && !isLoading
      ensures sent ==> apiError == if Succeeded(reply) then "" else FailureMessage(reply, "Registration failed")
    {
      var found := ValidateForm(formData);
      if found == map[] {
        sent := true;
        isLoading := true;
        apiError := "";
        navigated := Succeeded(reply);
        if !navigated {
          apiError := FailureMessage(reply, "Registration failed");
        }
        isLoading := false;
      } else {
        sent, navigated := false, false;
        errors := found;
      }
    }
  }
}
