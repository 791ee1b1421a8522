/** The form state of app/login/page.jsx. As for the task form, the asynchronous
    `handleSubmit` is split at its `await` into `Submit` and `Resolve`; navigation by the router
    is recorded. */
module Login {
  import opened Wrappers
  import opened JsText
  import opened Validators
  import opened Api

  datatype Field = Email | Password

  datatype FormData = FormData(email: string, password: string) {
    function Get(f: Field): string {
      match f
      case Email => email
      case Password => password
    }

    /** `{ ...prev, [name]: value }`. */
    function With(f: Field, v: string): (r: FormData)
      ensures r.Get(f) == v
      ensures forall g: Field | g != f :: r.Get(g) == Get(g)
    {
      match f
      case Email => this.(email := v)
      case Password => this.(password := v)
    }
  }

  /** The `errors` object, one optional entry per field. */
  datatype Errors = Errors(email: Option<string>, password: Option<string>) {
    function Get(f: Field): Option<string> {
      match f
      case Email => email
      case Password => password
    }

    /** `{ ...prev, [name]: message }`. */
    function Set(f: Field, message: string): (r: Errors)
      ensures r.Get(f) == Some(message)
      ensures forall g: Field | g != f :: r.Get(g) == Get(g)
    {
      match f
      case Email => this.(email := Some(message))
      case Password => this.(password := Some(message))
    }

    /** `Object.keys(errors).length`. */
    function KeyCount(): (n: nat)
      ensures n == 0 <==> email.None? && password.None?
    {
      (if email.Some? then 1 else 0) + (if password.Some? then 1 else 0)
    }
  }

  const NoErrors := Errors(None, None)
  const EmptyForm := FormData("", "")
  const EmailRequired := "Email is required"
  const InvalidEmail := "Please enter a valid email address"
  const PasswordRequired := "Password is required"
  const LoginFailed := "Login failed. Please try again."
  const DashboardPath := "/dashboard"
  const LoginPath := "/auth/login"

  /** `errors[name]` is truthy. */
  predicate HasError(errors: Errors, f: Field) {
    errors.Get(f).Some? && errors.Get(f).value != ""
  }

  /** The errors validateForm reports: a blank email is "required", a non-blank one
      that validateEmail rejects (tested as typed, untrimmed) is "not valid"; the password is
      only required to be non-empty. */
  function LoginErrors(form: FormData): Errors {
    Errors(if IsBlank(form.email) then Some(EmailRequired)
           else if !ValidateEmail(form.email) then Some(InvalidEmail)
           else None,
           if form.password == "" then Some(PasswordRequired) else None)
  }

  /** The body of validateForm up to `setErrors`. */
  method CollectErrors(form: FormData) returns (newErrors: Errors, valid: bool)
    ensures newErrors == LoginErrors(form)
    ensures valid <==> newErrors == NoErrors
  {
    TrimEmptyIffBlank(form.email);
    newErrors := NoErrors;
    if |Trim(form.email)| == 0 {
      newErrors := newErrors.Set(Email, EmailRequired);
    } else if !ValidateEmail(form.email) {
      newErrors := newErrors.Set(Email, InvalidEmail);
    }
    if |form.password| == 0 {
      newErrors := newErrors.Set(Password, PasswordRequired);
    }
    // Object.keys(newErrors).length === 0
    valid := newErrors.KeyCount() == 0;
  }

  /** The login form passes validation exactly when validateEmail accepts the email and the
      password is not empty: the "required" check on the email is subsumed by the format
      check, and no strength check is made on the password. */
  lemma LoginValidIff(form: FormData)
    ensures LoginErrors(form) == NoErrors <==> ValidateEmail(form.email) && form.password != ""
  {
  }

  /** An address with a leading space is not blank but fails the untrimmed format check, so it
      gets the "not valid" message rather than "required". */
  lemma LeadingSpaceEmailMessage(password: string)
    ensures LoginErrors(FormData(" a@b.c", password)).email == Some(InvalidEmail)
  {
    LeadingSpaceEmailRejected();
    assert !IsBlank(" a@b.c") by {
      assert !IsWs(" a@b.c"[1]);
    }
  }

  class LoginPage {
    var formData: FormData
    var errors: Errors
    var loading: bool
    var apiError: string
    var successMessage: string
    /** Requests sent and router navigations, oldest first. */
    var requests: seq<Request>
    var navigations: seq<string>
    /** Requests sent whose continuation has not run yet. */
    var outstanding: nat

    /** `loading` is true exactly while a request is awaited, and the submit button, disabled
        while loading, lets at most one request be in flight. */
    predicate Valid()
      reads this
    {
      (loading <==> outstanding > 0) && outstanding <= 1
    }

    /** The initial state of the page's `useState` hooks. */
    constructor ()
      ensures Valid()
      ensures formData == EmptyForm && errors == NoErrors && !loading
      ensures apiError == "" && successMessage == ""
      ensures requests == [] && navigations == [] && outstanding == 0
    {
      formData := FormData("", "");
      errors := NoErrors;
      loading := false;
      apiError := "";
      successMessage := "";
      requests := [];
      navigations := [];
      outstanding := 0;
    }

    /** handleChange: the named field takes the value, its error is blanked if it was shown,
        and the API error is cleared. */
    method HandleChange(f: Field, v: string)
      requires Valid()
      modifies this
      ensures Valid()
      ensures formData == old(formData).With(f, v)
      ensures errors == if HasError(old(errors), f) then old(errors).Set(f, "") else old(errors)
      ensures !HasError(errors, f)
      ensures forall g: Field | g != f :: errors.Get(g) == old(errors).Get(g)
      ensures apiError == ""
      ensures loading == old(loading) && successMessage == old(successMessage)
      ensures requests == old(requests) && navigations == old(navigations)
      ensures outstanding == old(outstanding)
    {
      formData := formData.With(f, v);
      if HasError(errors, f) {
        errors := errors.Set(f, "");
      }
      apiError := "";
    }

    /** validateForm: stores the collected errors and reports whether there were none. */
    method ValidateForm() returns (valid: bool)
      requires Valid()
      modifies this
      ensures Valid()
      ensures errors == LoginErrors(formData)
      ensures valid <==> ValidateEmail(formData.email) && formData.password != ""
      ensures formData == old(formData) && apiError == old(apiError) && loading == old(loading)
      ensures successMessage == old(successMessage)
      ensures requests == old(requests) && navigations == old(navigations)
      ensures outstanding == old(outstanding)
    {
      var newErrors;
      newErrors, valid := CollectErrors(formData);
      LoginValidIff(formData);
      errors := newErrors;
    }

    /** handleSubmit up to the await: clears the API error and the success message and
        validates; an invalid form sends nothing, a valid one sets `loading` and posts the
        form. The submit button is disabled while `loading`, so no second request can start. */
    method Submit() returns (sent: bool)
      requires Valid() && !loading
      modifies this
      ensures Valid()
      ensures apiError == "" && successMessage == ""
      ensures errors == LoginErrors(old(formData)) && formData == old(formData)
      ensures sent <==> ValidateEmail(formData.email) && formData.password != ""
      ensures sent ==> loading && outstanding == old(outstanding) + 1
                       && requests == old(requests)
                                      + [Post(LoginPath, LoginBody(formData.email, formData.password))]
      ensures !sent ==> loading == old(loading) && outstanding == old(outstanding)
                        && requests == old(requests)
      ensures navigations == old(navigations)
    {
      apiError := "";
      successMessage := "";
      var valid := ValidateForm();
      if !valid {
        return false;
      }
      loading := true;
      requests := requests + [Post(LoginPath, LoginBody(formData.email, formData.password))];
      outstanding := outstanding + 1;
      sent := true;
    }

    /** handleSubmit after the await: `success` navigates to the dashboard, a response without
        it changes nothing else, a rejected request shows the server's message or the fallback;
        the form is kept and `loading` ends false on every path. */
    method Resolve(response: LoginResponse)
      requires Valid() && outstanding > 0
      modifies this
      ensures Valid()
      ensures !loading && outstanding == old(outstanding) - 1
      ensures navigations == if response.LoginOk? && response.success
                             then old(navigations) + [DashboardPath] else old(navigations)
      ensures apiError == if response.LoginErr? then ErrorMessage(response.message, LoginFailed)
                          else old(apiError)
      ensures response.LoginErr? ==> apiError != ""
      ensures formData == old(formData) && errors == old(errors)
      ensures successMessage == old(successMessage) && requests == old(requests)
    {
      match response {
        case LoginOk(success) =>
          if success {
            navigations := navigations + [DashboardPath];
          }
        case LoginErr(message) =>
          apiError := ErrorMessage(message, LoginFailed);
      }
      loading := false;
      outstanding := outstanding - 1;
    }
  }
}
