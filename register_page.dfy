/**
 * The sign-up form (frontend/src/app/components/RegisterPage.tsx): two
 * client-side checks in a fixed order, then one register call. As for the
 * sign-in form, Start runs up to the `await` and Settle after it.
 */
module RegisterPage {
  import opened Wrappers
  import opened AuthService

  const PasswordsDoNotMatch: string := "Passwords do not match"
  const PasswordTooShort: string := "Password must be at least 6 characters"
  const RegisterFailed: string := "Username already exists or invalid data"

  /** The shortest password the form lets through. */
  const MinPasswordLength: nat := 6

  /**
   * The message of the first client-side check the two password fields
   * fail: the match check comes before the length check.
   */
  function ClientCheck(password: string, confirmPassword: string): (r: Option<string>)
    ensures r.None? <==> password == confirmPassword && |password| >= MinPasswordLength
    ensures password != confirmPassword ==> r == Some(PasswordsDoNotMatch)
    ensures password == confirmPassword && |password| < MinPasswordLength ==> r == Some(PasswordTooShort)
  {
    if password != confirmPassword then Some(PasswordsDoNotMatch)
    else if |password| < MinPasswordLength then Some(PasswordTooShort)
    else None
  }

  class RegisterForm {
    var username: string
    var password: string
    var confirmPassword: string
    var isLoading: bool
    var error: string

    /** A freshly mounted form: empty fields, idle, empty message. */
    constructor ()
      ensures username == "" && password == "" && confirmPassword == ""
      ensures !isLoading && error == ""
    {
      username, password, confirmPassword := "", "", "";
      isLoading, error := false, "";
    }

    /** The change handlers of the three fields. */
    method SetFields(user: string, pass: string, confirm: string)
      modifies this
      ensures username == user && password == pass && confirmPassword == confirm
      ensures isLoading == old(isLoading) && error == old(error)
    {
      username, password, confirmPassword := user, pass, confirm;
    }

    /**
     * The browser's `required` check on the three inputs: a form with an
     * empty field is not submitted and its submit handler does not run.
     */
    predicate Filled()
      reads this
    {
      username != "" && password != "" && confirmPassword != ""
    }

    /**
     * The submit handler up to the `await`, once the `required` check has
     * passed: clears the message, runs the
     * checks, and either stops with the first failing check's message
     * (no call, loading untouched) or shows the loading state and sends
     * the username and password; `confirmPassword` is never sent.
     */
    method Start() returns (request: Option<Credentials>)
      modifies this
      ensures request.None? <==> ClientCheck(password, confirmPassword).Some?
      ensures request.None? ==> error == ClientCheck(password, confirmPassword).value
                                && isLoading == old(isLoading)
      ensures request.Some? ==> request.value == Credentials(username, password)
                                && isLoading && error == ""
      ensures username == old(username) && password == old(password)
      ensures confirmPassword == old(confirmPassword)
    {
      error := "";
      if password != confirmPassword {
        error := PasswordsDoNotMatch;
        return None;
      }
      if |password| < MinPasswordLength {
        error := PasswordTooShort;
        return None;
      }
      isLoading := true;
      request := Some(Credentials(username, password));
    }

    /**
     * The submit handler from the `await` on: on success the parent's
     * `onRegister` runs (`registered`), on failure the message is set;
     * either way loading ends. No token is stored on either path.
     */
    method Settle(request: Credentials, reply: Settled<Account>) returns (registered: bool)
      modifies this
      ensures registered <==> reply.Resolved?
      ensures !isLoading
      ensures error == if reply.Resolved? then old(error) else RegisterFailed
      ensures username == old(username) && password == old(password)
      ensures confirmPassword == old(confirmPassword)
    {
      var r := Register(request, reply);
      if r.Resolved? {
        registered := true;
      } else {
        registered := false;
        error := RegisterFailed;
      }
      isLoading := false;
    }

    /**
     * A whole submit. With an empty field the browser blocks it and nothing
     * changes; otherwise a register call happens exactly when both checks
     * pass. The fields are kept either way.
     */
    method Submit(reply: Settled<Account>) returns (request: Option<Credentials>, registered: bool)
      modifies this
      ensures request.None? <==> !old(Filled()) || ClientCheck(old(password), old(confirmPassword)).Some?
      ensures request.None? ==> !registered && isLoading == old(isLoading)
      ensures !old(Filled()) ==> error == old(error)
      ensures old(Filled()) && request.None? ==> error == ClientCheck(old(password), old(confirmPassword)).value
      ensures request.Some? ==> request.value == Credentials(old(username), old(password))
                                && !isLoading && (registered <==> reply.Resolved?)
                                && error == (if reply.Resolved? then "" else RegisterFailed)
      ensures username == old(username) && password == old(password)
      ensures confirmPassword == old(confirmPassword)
    {
      registered := false;
      if !Filled() {
        return None, false;
      }
      request := Start();
      if request.Some? {
        registered := Settle(request.value, reply);
      }
    }
  }
}
