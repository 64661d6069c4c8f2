/** The admin sign-in page: the loading and error flags around the token
    call, and what it writes into storage. */
module AdminLogin {
  import opened Common
  import opened Api

  const InvalidCredentials := "Invalid credentials. Please try again."

  /** What the page writes on success: both tokens and the role, each as
      `String` makes it (a missing field becomes "undefined"), the role with
      its case kept. */
  function StoredReply(store: map<string, string>, reply: TokenReply): (s: map<string, string>)
    ensures s.Keys == store.Keys + {"access_token", "refresh_token", "role"}
    ensures s["access_token"] == reply.access.AsString()
    ensures s["refresh_token"] == reply.refresh.AsString()
    ensures s["role"] == reply.role.AsString()
    ensures forall k :: k in store && k !in {"access_token", "refresh_token", "role"} ==> s[k] == store[k]
  {
    store["access_token" := reply.access.AsString()]
         ["refresh_token" := reply.refresh.AsString()]
         ["role" := reply.role.AsString()]
  }

  /** The state of the `AdminLogin` component, over the shared session. */
  class AdminLoginPage {
    const session: Session
    var error: string
    var isLoading: bool

    constructor (session: Session)
      ensures this.session == session && error == "" && !isLoading
    {
      this.session := session;
      error := "";
      isLoading := false;
    }

    /** `handleSubmit` up to the call: the error is cleared and loading
        starts. */
    method Begin()
      modifies this`error, this`isLoading
      ensures error == "" && isLoading
    {
      error := "";
      isLoading := true;
    }

    /** `handleSubmit` after the call. On a reply: the three writes, then
        `setAuthToken(access)`, then the dashboard. On a failure: the error
        message and no write. Loading ends either way. */
    method Settle(response: Outcome<TokenReply>) returns (navigateTo: Option<string>)
      modifies this`error, this`isLoading, session
      ensures !isLoading
      ensures response.Err? ==>
                && error == InvalidCredentials && navigateTo.None?
                && session.store == old(session.store) && session.defaultAuth == old(session.defaultAuth)
      ensures response.Ok? ==>
                var reply := response.data;
                var written := StoredReply(old(session.store), reply);
                && error == old(error) && navigateTo == Some("/dashboard")
                && session.store == (if reply.access.Truthy() then written["access_token" := reply.access.s]
                                     else written - {"access_token"})
                && session.defaultAuth == (if reply.access.Truthy() then Some("Bearer " + reply.access.s) else None)
    {
      if response.Ok? {
        var reply := response.data;
        session.store := StoredReply(session.store, reply);
        session.SetAuthToken(reply.access);
        navigateTo := Some("/dashboard");
      } else {
        error := InvalidCredentials;
        navigateTo := None;
      }
      isLoading := false;
    }
  }

  /** A reply with a token leaves exactly that token in storage (the second
      write by `setAuthToken` agrees with the first). A reply without one
      leaves no token at all, although "undefined" was written first. */
  lemma AccessTokenAfterLogin(store: map<string, string>, reply: TokenReply)
    ensures reply.access.Truthy() ==>
              StoredReply(store, reply)["access_token" := reply.access.s] == StoredReply(store, reply)
    ensures reply.access == Undefined ==>
              "access_token" !in StoredReply(store, reply) - {"access_token"}
              && StoredReply(store, reply)["access_token"] == "undefined"
  {
  }
}
