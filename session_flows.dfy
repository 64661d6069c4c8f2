/** What the storage keys that the pages write and read imply when the pages
    are used one after the other. */
module SessionFlows {
  import opened Common
  import opened Api
  import AdminLogin
  import PrivateRoute
  import Header
  import JsString

  /** Signing in on the admin page never opens the guarded routes on its
      own: the page writes `access_token`, the guard reads `access`. */
  method AdminSignInThenGuard(session: Session, reply: TokenReply) returns (route: PrivateRoute.Route)
    requires "access" !in session.store
    modifies session
    ensures route == PrivateRoute.Redirect("/admin")
    ensures Header.IsAdmin(session.store) <==> reply.role == Str("admin")
  {
    var page := new AdminLogin.AdminLoginPage(session);
    page.Begin();
    var _ := page.Settle(Ok(reply));
    route := PrivateRoute.Guard(session.store);
  }

  /** The same holds for the API's `login`. */
  method ApiLoginThenGuard(session: Session, reply: TokenReply) returns (route: PrivateRoute.Route)
    requires "access" !in session.store
    modifies session
    ensures route == PrivateRoute.Redirect("/admin")
  {
    var _ := session.Login(Ok(reply));
    route := PrivateRoute.Guard(session.store);
  }

  /** The two sign-in paths disagree on a role sent as "Admin": the API's
      `login` lower-cases it, so the header treats the user as an admin; the
      admin page stores it as sent, so it does not. */
  method RoleCaseDependsOnPath(first: Session, second: Session, reply: TokenReply)
    requires first != second
    requires reply.role == Str("Admin")
    modifies first, second
    ensures Header.IsAdmin(first.store)
    ensures !Header.IsAdmin(second.store)
  {
    var _ := first.Login(Ok(reply));
    assert JsString.ToLower("Admin") == "admin";
    var page := new AdminLogin.AdminLoginPage(second);
    page.Begin();
    var _ := page.Settle(Ok(reply));
  }

  /** Logging out after a login empties the storage, so the interceptor
      adds nothing, but the client's default header still carries the old
      token. */
  method LogoutKeepsDefaultHeader(session: Session, reply: TokenReply, headers: Headers)
      returns (sent: Headers)
    requires reply.access.Truthy()
    modifies session
    ensures sent == headers
    ensures session.defaultAuth == Some("Bearer " + reply.access.s)
  {
    var _ := session.Login(Ok(reply));
    var _ := Header.Logout(session);
    sent := Intercept(session.store, headers);
  }
}
