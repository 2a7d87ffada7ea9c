/**
 * The session store of the client (frontend/src/services/authService.ts):
 * the bearer token lives in `localStorage` under the key "token"; `login`
 * writes it, `logout` removes it and `register` never touches it.
 */
module AuthService {
  import opened Wrappers
  import opened Storage

  /** The key the token is stored under. */
  const TokenKey: string := "token"

  /** The body of a login or register request. */
  datatype Credentials = Credentials(username: string, password: string)

  /** The body of a successful login response: the JWT pair issued by the backend. */
  datatype TokenPair = TokenPair(access: string, refresh: string)

  /** What a successful register call resolves with: the created account. */
  datatype Account = Account(username: string)

  /** The token as `localStorage.getItem("token")` reads it from a store holding `items`. */
  function StoredToken(items: map<string, string>): Option<string> {
    Lookup(items, TokenKey)
  }

  /** The two stores hold the same value under every key other than the token's. */
  ghost predicate SameExceptToken(a: map<string, string>, b: map<string, string>) {
    forall k :: k != TokenKey ==> (k in a <==> k in b) && (k in a && k in b ==> a[k] == b[k])
  }

  /** The store after `login` settles with `reply`. */
  function AfterLogin(items: map<string, string>, reply: Settled<TokenPair>): (r: map<string, string>)
    ensures reply.Resolved? ==> StoredToken(r) == Some(reply.value.access)
    ensures reply.Rejected? ==> r == items
    ensures SameExceptToken(items, r)
  {
    match reply
    case Resolved(body) => items[TokenKey := body.access]
    case Rejected => items
  }

  /** The store after `logout`. */
  function AfterLogout(items: map<string, string>): (r: map<string, string>)
    ensures StoredToken(r) == None
    ensures SameExceptToken(items, r)
  {
    items - {TokenKey}
  }

  /**
   * `login(data)`: posts the credentials; when the post resolves, stores the
   * response's `access` field as the token and returns the response body.
   * When the post rejects, the rejection propagates before `setItem` runs.
   * `data` is the request the backend answered with `reply`.
   */
  method Login(store: LocalStorage, data: Credentials, reply: Settled<TokenPair>)
    returns (r: Settled<TokenPair>)
    modifies store
    ensures r == reply
    ensures store.items == AfterLogin(old(store.items), reply)
  {
    if reply.Rejected? {
      return Rejected;
    }
    store.SetItem(TokenKey, reply.value.access);
    r := reply;
  }

  /**
   * `register(data)`: posts the new account and passes the backend's outcome
   * through. It never writes the store; the post itself goes through the
   * request interceptor like any other, which is not modelled here.
   */
  method Register(data: Credentials, reply: Settled<Account>) returns (r: Settled<Account>)
    ensures r == reply
  {
    r := reply;
  }

  /** `logout()`: removes the token; no network call. */
  method Logout(store: LocalStorage)
    modifies store
    ensures store.items == AfterLogout(old(store.items))
  {
    store.RemoveItem(TokenKey);
  }

  /** A second successful login replaces the token left by the first. */
  lemma SecondLoginOverwrites(items: map<string, string>, first: TokenPair, second: TokenPair)
    ensures AfterLogin(AfterLogin(items, Resolved(first)), Resolved(second))
         == AfterLogin(items, Resolved(second))
  {
  }

  /** A rejected login after a successful one keeps the first token. */
  lemma RejectedLoginKeepsToken(items: map<string, string>, first: TokenPair)
    ensures StoredToken(AfterLogin(AfterLogin(items, Resolved(first)), Rejected)) == Some(first.access)
  {
  }

  /** Logging out twice, or with no token stored, leaves the same store as logging out once. */
  lemma LogoutIdempotent(items: map<string, string>)
    ensures AfterLogout(AfterLogout(items)) == AfterLogout(items)
    ensures StoredToken(items) == None ==> AfterLogout(items) == items
  {
  }

  /** Logging out after logging in restores every other key and leaves no token. */
  lemma LogoutUndoesLogin(items: map<string, string>, body: TokenPair)
    ensures AfterLogout(AfterLogin(items, Resolved(body))) == AfterLogout(items)
  {
  }
}
