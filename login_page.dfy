/**
 * The sign-in form (frontend/src/app/components/LoginPage.tsx). A submit is
 * split at its `await`: Start is what happens before the login call is
 * made, Settle what happens when it resolves or rejects.
 */
module LoginPage {
  import opened Wrappers
  import opened Storage
  import opened AuthService

  /** The message stored when the login call rejects; the page never renders it. */
  const InvalidCredentials: string := "Invalid username or password"

  class LoginForm {
    var username: string
    var password: string
    var isLoading: bool
    var error: Option<string>

    /** A freshly mounted form: empty fields, idle, no message. */
    constructor ()
      ensures username == "" && password == "" && !isLoading && error == None
    {
      username, password, isLoading, error := "", "", false, None;
    }

    /** The username field's change handler. */
    method SetUsername(value: string)
      modifies this
      ensures username == value
      ensures password == old(password) && isLoading == old(isLoading) && error == old(error)
    {
      username := value;
    }

    /** The password field's change handler. */
    method SetPassword(value: string)
      modifies this
      ensures password == value
      ensures username == old(username) && isLoading == old(isLoading) && error == old(error)
    {
      password := value;
    }

    /**
     * The browser's `required` check on the two inputs: a form with an
     * empty field is not submitted and its submit handler does not run.
     */
    predicate Filled()
      reads this
    {
      username != "" && password != ""
    }

    /**
     * The submit handler up to the `await`. It runs only once the
     * `required` check has passed and makes no check of its own: it shows
     * the loading state, clears the message and sends the fields as they
     * stand.
     */
    method Start() returns (request: Credentials)
      modifies this
      ensures isLoading && error == None
      ensures request == Credentials(username, password)
      ensures username == old(username) && password == old(password)
    {
      isLoading := true;
      error := None;
      request := Credentials(username, password);
    }

    /**
     * The submit handler from the `await` on: the login call settles with
     * `reply`; on success the parent's `onLogin` runs (`loggedIn`), on
     * failure the message is set; either way loading ends.
     */
    method Settle(store: LocalStorage, request: Credentials, reply: Settled<TokenPair>)
      returns (loggedIn: bool)
      modifies this, store
      ensures loggedIn <==> reply.Resolved?
      ensures !isLoading
      ensures error == if reply.Resolved? then old(error) else Some(InvalidCredentials)
      ensures store.items == AfterLogin(old(store.items), reply)
      ensures username == old(username) && password == old(password)
    {
      var r := Login(store, request, reply);
      if r.Resolved? {
        loggedIn := true;
      } else {
        loggedIn := false;
        error := Some(InvalidCredentials);
      }
      isLoading := false;
    }

    /**
     * A whole submit. With an empty field the browser blocks it: no call,
     * nothing changes. Otherwise exactly one login call is made with the
     * fields as typed. The fields are kept either way.
     */
    method Submit(store: LocalStorage, reply: Settled<TokenPair>)
      returns (request: Option<Credentials>, loggedIn: bool)
      modifies this, store
      ensures request.None? <==> !old(Filled())
      ensures request.None? ==> !loggedIn && isLoading == old(isLoading) && error == old(error)
                                && store.items == old(store.items)
      ensures request.Some? ==> request.value == Credentials(old(username), old(password))
                                && (loggedIn <==> reply.Resolved?) && !isLoading
                                && error == (if reply.Resolved? then None else Some(InvalidCredentials))
                                && store.items == AfterLogin(old(store.items), reply)
      ensures username == old(username) && password == old(password)
    {
      if !Filled() {
        return None, false;
      }
      var sent := Start();
      loggedIn := Settle(store, sent, reply);
      request := Some(sent);
    }
  }
}
