/** The API client's session handling: the browser storage and the client's
    default Authorization header, the request interceptor, and the token,
    login and user helpers. */
module Api {
  import opened Common
  import JsString

  /** The token endpoint's reply; any of its fields may be missing. */
  datatype TokenReply = TokenReply(access: JsStr, refresh: JsStr, role: JsStr)

  /** A request's headers. */
  type Headers = map<string, string>

  /** The request interceptor: with a non-empty `access_token` in storage,
      the request's Authorization becomes `Bearer <token>`, replacing any
      it had; without one the request goes out as it was. */
  function Intercept(store: map<string, string>, headers: Headers): (h: Headers)
    ensures "access_token" in store && store["access_token"] != "" ==>
              h == headers["Authorization" := "Bearer " + store["access_token"]]
    ensures !("access_token" in store && store["access_token"] != "") ==> h == headers
  {
    if "access_token" in store && store["access_token"] != "" then
      headers["Authorization" := "Bearer " + store["access_token"]]
    else headers
  }

  /** `role ? role.toLowerCase() : ""`. */
  function LoginRole(role: JsStr): (r: string)
    ensures JsString.IsLower(r)
    ensures !role.Truthy() ==> r == ""
    ensures role.Truthy() ==> r == JsString.ToLower(role.s)
  {
    if role.Truthy() then JsString.ToLower(role.s) else ""
  }

  /** `fetchUser`: the stored role lower-cased, or "" when there is none. */
  function UserRole(store: map<string, string>): (r: string)
    ensures JsString.IsLower(r)
    ensures "role" !in store ==> r == ""
    ensures "role" in store ==> r == JsString.ToLower(store["role"])
  {
    JsString.ToLower(if "role" in store && store["role"] != "" then store["role"] else "")
  }

  /** The browser storage and the client's defaults, shared by every page. */
  class Session {
    var store: map<string, string>
    var defaultAuth: Option<string>

    constructor (initial: map<string, string>)
      ensures store == initial && defaultAuth == None
    {
      store := initial;
      defaultAuth := None;
    }

    /** `setAuthToken(token)`: a truthy token is stored under `access_token`
        and becomes the default header; a falsy one removes both. */
    method SetAuthToken(token: JsStr)
      modifies this
      ensures token.Truthy() ==>
                store == old(store)["access_token" := token.s] && defaultAuth == Some("Bearer " + token.s)
      ensures !token.Truthy() ==>
                store == old(store) - {"access_token"} && defaultAuth == None
    {
      if token.Truthy() {
        store := store["access_token" := token.s];
        defaultAuth := Some("Bearer " + token.s);
      } else {
        store := store - {"access_token"};
        defaultAuth := None;
      }
    }

    /** `login`: on a reply, stores both tokens as `String` makes them and
        the lower-cased role, and sets the default header; a failed call
        changes nothing and is passed on. */
    method Login(response: Outcome<TokenReply>) returns (result: Outcome<TokenReply>)
      modifies this
      ensures result == response
      ensures response.Err? ==> store == old(store) && defaultAuth == old(defaultAuth)
      ensures response.Ok? ==>
                var reply := response.data;
                && store == old(store)["access_token" := reply.access.AsString()]
                                      ["refresh_token" := reply.refresh.AsString()]
                                      ["role" := LoginRole(reply.role)]
                && defaultAuth == Some("Bearer " + reply.access.AsString())
    {
      result := response;
      if response.Ok? {
        var reply := response.data;
        store := store["access_token" := reply.access.AsString()];
        store := store["refresh_token" := reply.refresh.AsString()];
        store := store["role" := LoginRole(reply.role)];
        defaultAuth := Some("Bearer " + reply.access.AsString());
      }
    }

    /** `fetchUser`: reads the role and writes nothing. */
    function FetchUser(): (role: string)
      reads this
      ensures role == UserRole(store)
    {
      UserRole(store)
    }
  }

  /** After `setAuthToken(t)` the interceptor attaches exactly `Bearer t`;
      after `setAuthToken` with a falsy value it attaches nothing. */
  lemma InterceptAfterSetAuthToken(store: map<string, string>, token: JsStr, headers: Headers)
    ensures token.Truthy() ==>
              Intercept(store["access_token" := token.s], headers)["Authorization"] == "Bearer " + token.s
    ensures !token.Truthy() ==> Intercept(store - {"access_token"}, headers) == headers
  {
  }

  /** After a login the user's role reads back as the login stored it. */
  lemma {:induction false} FetchUserAfterLogin(store: map<string, string>, reply: TokenReply)
    ensures UserRole(store["access_token" := reply.access.AsString()]
                          ["refresh_token" := reply.refresh.AsString()]
                          ["role" := LoginRole(reply.role)]) == LoginRole(reply.role)
  {
    JsString.ToLowerOfLower(LoginRole(reply.role));
  }
}
