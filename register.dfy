/** The sign-up page (src/auth/Register.tsx): its validation schema and its
    submit handler, which signs up and then stores the user's profile row. */
module Register {
  import opened Outcomes
  import opened Models

  /** The registration schema. Email: well-formed and required (`isEmail`
      stands for the schema library's email check). Password: at least 6
      characters and required. Confirmation: equal to the password and
      required. Username: required. The "required" rules of the password
      and the confirmation never decide on their own: a password of 6
      characters is not empty, and the confirmation equals it. */
  predicate ValidRegistration(v: RegisterValues, isEmail: string -> bool): (ok: bool)
    ensures ok <==> isEmail(v.email) && v.email != "" && |v.password| >= 6 && v.confirmPassword == v.password && v.username != ""
    ensures ok ==> v.confirmPassword != "" && MismatchMessage(v) == None
  {
    && isEmail(v.email) && v.email != ""
    && |v.password| >= 6 && v.password != ""
    && v.confirmPassword == v.password && v.confirmPassword != ""
    && v.username != ""
  }

  const MismatchText := "Passwords must match"

  /** The message of the confirmation's `oneOf` rule: present exactly when
      the confirmation differs from the password. */
  function MismatchMessage(v: RegisterValues): (m: Option<string>)
    ensures m.Some? <==> v.confirmPassword != v.password
    ensures m.Some? ==> m.value == MismatchText
  {
    if v.confirmPassword != v.password then Some(MismatchText) else None
  }

  /** A confirmation that differs from the password always fails the schema,
      with the mismatch message; the sample "abcdef" / "abcdex" is one. */
  lemma MismatchRejected(v: RegisterValues, isEmail: string -> bool)
    requires v.confirmPassword != v.password
    ensures !ValidRegistration(v, isEmail) && MismatchMessage(v) == Some(MismatchText)
    ensures MismatchMessage(RegisterValues(v.email, "abcdef", "abcdex", v.username)) == Some(MismatchText)
  {
  }

  const EmptyRegistration := RegisterValues("", "", "", "")

  /** The profile row inserted after sign-up: `{ id: data.user?.id, username }`. */
  datatype UserRow = UserRow(id: Option<Id>, username: string)

  class Page {
    var values: RegisterValues
    var loading: bool
    var navigatedTo: Option<string>
    /** Whether the blocking browser alert about the profile row was shown. */
    var alerted: bool

    constructor ()
      ensures values == EmptyRegistration && !loading && navigatedTo == None && !alerted
    {
      values, loading, navigatedTo, alerted := EmptyRegistration, false, None, false;
    }

    /** Typing into the form. */
    method Edit(v: RegisterValues)
      modifies this
      ensures values == v && loading == old(loading) && navigatedTo == old(navigatedTo) && alerted == old(alerted)
    {
      values := v;
    }

    /** A submit. Values that fail the schema never reach `onSubmit`: no
      sign-up is attempted. Otherwise `loading` is set and the sign-up sent;
      on a sign-up error or exception the handler stops there, with
      `loading` still set. After a sign-up the row (user id, username) is
      inserted; only if that succeeds does `loading` clear, the page go to
      "/login" and the form reset. An insert error shows an alert. */
    method Submit(isEmail: string -> bool, signUp: Reply<Option<Id>>, insert: Reply<()>)
      returns (signUpCalled: bool, row: Option<UserRow>)
      modifies this
      ensures signUpCalled == ValidRegistration(old(values), isEmail)
      ensures !signUpCalled ==> row == None && values == old(values) && loading == old(loading)
                                && navigatedTo == old(navigatedTo) && alerted == old(alerted)
      ensures signUpCalled ==> row == (if signUp.Ok? then Some(UserRow(signUp.value, old(values).username)) else None)
      ensures signUpCalled ==> (loading <==> !(signUp.Ok? && insert.Ok?))
      ensures navigatedTo == if signUpCalled && signUp.Ok? && insert.Ok? then Some("/login") else old(navigatedTo)
      ensures values == if signUpCalled && signUp.Ok? && insert.Ok? then EmptyRegistration else old(values)
      ensures alerted <==> old(alerted) || (signUpCalled && signUp.Ok? && insert.Err?)
    {
      row := None;
      if !ValidRegistration(values, isEmail) {
        return false, None;
      }
      signUpCalled := true;
      loading := true;
      match signUp {
        case Err =>
          return;
        case Throws =>
          return;
        case Ok(userId) =>
          row := Some(UserRow(userId, values.username));
          match insert {
            case Err =>
              alerted := true;
            case Throws =>
            case Ok(_) =>
              loading := false;
              navigatedTo := Some("/login");
              values := EmptyRegistration;
          }
      }
    }
  }
}
