/**
 * The configured request client (frontend/src/api/http.ts): fixed defaults
 * and a request interceptor that attaches the stored bearer token.
 */
module Http {
  import opened Wrappers
  import opened Storage
  import AuthService

  const BaseURL: string := "http://127.0.0.1:8000/api/"
  const ContentType: string := "Content-Type"
  const Json: string := "application/json"
  const Authorization: string := "Authorization"

  /** The headers every request starts with. */
  const DefaultHeaders: map<string, string> := map[ContentType := Json]

  /**
   * The per-request configuration object axios hands to the interceptor.
   * Its `headers` are updated in place.
   */
  class RequestConfig {
    var baseURL: string
    var withCredentials: bool
    var headers: map<string, string>
    var verb: string
    var url: string

    /** A request for `url` built from the client's defaults. */
    constructor FromDefaults(verb: string, url: string)
      ensures baseURL == BaseURL && withCredentials && headers == DefaultHeaders
      ensures this.verb == verb && this.url == url
    {
      baseURL := BaseURL;
      withCredentials := true;
      headers := DefaultHeaders;
      this.verb := verb;
      this.url := url;
    }
  }

  /** The headers the interceptor leaves when `getItem("token")` returned `token`. */
  function WithBearer(headers: map<string, string>, token: Option<string>): (r: map<string, string>)
    ensures TruthyString(token) ==> Authorization in r && r[Authorization] == "Bearer " + token.value
    ensures !TruthyString(token) ==> r == headers
    ensures forall k :: k != Authorization ==> (k in r <==> k in headers) && (k in r && k in headers ==> r[k] == headers[k])
  {
    if TruthyString(token) then headers[Authorization := "Bearer " + token.value] else headers
  }

  /**
   * The request interceptor: reads the token and, when it is truthy,
   * overwrites the Authorization header; returns the same config object.
   */
  method Intercept(config: RequestConfig, store: LocalStorage) returns (r: RequestConfig)
    modifies config
    ensures r == config
    ensures config.headers == WithBearer(old(config.headers), AuthService.StoredToken(store.items))
    ensures config.baseURL == old(config.baseURL) && config.withCredentials == old(config.withCredentials)
    ensures config.verb == old(config.verb) && config.url == old(config.url)
  {
    var token := store.GetItem(AuthService.TokenKey);
    if token.Some? && token.value != "" {
      config.headers := config.headers[Authorization := "Bearer " + token.value];
    }
    r := config;
  }

  /** Intercepting a second time changes nothing: the header is overwritten, never appended to. */
  lemma InterceptIdempotent(headers: map<string, string>, token: Option<string>)
    ensures WithBearer(WithBearer(headers, token), token) == WithBearer(headers, token)
  {
  }

  /**
   * The header a request carries follows the session store: after a
   * successful login it is the new access token, after logout the headers
   * are left as the request built them.
   */
  lemma HeaderFollowsSession(headers: map<string, string>, items: map<string, string>, body: AuthService.TokenPair)
    requires Authorization !in headers
    ensures body.access != "" ==>
      WithBearer(headers, AuthService.StoredToken(AuthService.AfterLogin(items, Resolved(body))))[Authorization]
        == "Bearer " + body.access
    ensures WithBearer(headers, AuthService.StoredToken(AuthService.AfterLogout(items))) == headers
  {
  }
}
