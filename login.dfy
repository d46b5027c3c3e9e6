/** The sign-in page (src/auth/Login.tsx): its validation schema and its
    submit handler, which signs in through the session store. */
module Login {
  import opened Outcomes
  import opened Models
  import opened AuthProvider

  /** The login schema. Email: required and well-formed (`isEmail` stands
      for the schema library's email check). Password: required and at least
      6 characters. A password long enough is never empty, so the password's
      "required" rule never decides on its own. */
  predicate ValidLogin(v: LoginValues, isEmail: string -> bool): (ok: bool)
    ensures ok <==> v.email != "" && isEmail(v.email) && |v.password| >= 6
  {
    && v.email != "" && isEmail(v.email)
    && v.password != "" && |v.password| >= 6
  }

  const EmptyLogin := LoginValues("", "")

  const ErrorText := "Account not available."

  class Page {
    /** The form's current values. */
    var values: LoginValues
    var error: bool
    var submitting: bool
    var navigatedTo: Option<string>

    constructor ()
      ensures values == EmptyLogin && !error && !submitting && navigatedTo == None
    {
      values, error, submitting, navigatedTo := EmptyLogin, false, false, None;
    }

    /** The message above the form. */
    function Banner(): (b: Option<string>)
      reads this
      ensures b.Some? <==> error
      ensures b.Some? ==> b.value == ErrorText
    {
      if error then Some(ErrorText) else None
    }

    /** Typing into the form. */
    method Edit(v: LoginValues)
      modifies this
      ensures values == v && error == old(error) && navigatedTo == old(navigatedTo) && submitting == old(submitting)
    {
      values := v;
    }

    /** A submit: values that fail the schema never reach `handleSubmit`, so
      no sign-in is attempted. Otherwise `login` runs; if it resolves the
      page navigates to "/", if it rejects the error flag is set. In both
      cases submitting ends and the form is reset. */
    method Submit(isEmail: string -> bool, auth: Session, reply: Reply<User>) returns (loginCalled: bool)
      modifies this, auth
      ensures loginCalled == ValidLogin(old(values), isEmail)
      ensures !loginCalled ==> values == old(values) && error == old(error) && navigatedTo == old(navigatedTo) && submitting == old(submitting)
      ensures !loginCalled ==> auth.user == old(auth.user) && auth.isAuthenticated == old(auth.isAuthenticated) && auth.loading == old(auth.loading)
      ensures auth.listening == old(auth.listening)
      ensures loginCalled ==> !submitting && values == EmptyLogin && !auth.loading
      ensures loginCalled && reply.Ok? ==> navigatedTo == Some("/") && error == old(error) && auth.user == Some(reply.value) && auth.isAuthenticated
      ensures loginCalled && !reply.Ok? ==> error && Banner() == Some(ErrorText) && navigatedTo == old(navigatedTo)
      ensures loginCalled && !reply.Ok? ==> auth.user == old(auth.user) && auth.isAuthenticated == old(auth.isAuthenticated)
    {
      if !ValidLogin(values, isEmail) {
        return false;
      }
      loginCalled := true;
      submitting := true;
      auth.BeginLogin();
      var raised := auth.EndLogin(reply);
      if raised {
        error := true;
      } else {
        navigatedTo := Some("/");
      }
      submitting := false;
      values := EmptyLogin;
    }
  }

  /** The two sample sign-ins: "user@example.com" / "secret1" passes the
      schema (given that the address is well-formed), "bad-email" does not. */
  lemma LoginExamples(isEmail: string -> bool)
    requires isEmail("user@example.com") && !isEmail("bad-email")
    ensures ValidLogin(LoginValues("user@example.com", "secret1"), isEmail)
    ensures forall p :: !ValidLogin(LoginValues("bad-email", p), isEmail)
    ensures !ValidLogin(LoginValues("user@example.com", "12345"), isEmail)
  {
  }
}
