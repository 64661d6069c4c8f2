/** The site header: the admin test, the logo target, and logout. */
module Header {
  import Api

  /** `role === "admin"`, exactly. */
  predicate IsAdmin(store: map<string, string>) {
    "role" in store && store["role"] == "admin"
  }

  /** Where the logo leads. */
  function LogoTarget(store: map<string, string>): (to: string)
    ensures to == "/dashboard" <==> IsAdmin(store)
    ensures to == "/dashboard" || to == "/"
  {
    if IsAdmin(store) then "/dashboard" else "/"
  }

  /** The Logout button is drawn for an admin only. */
  function ShowLogout(store: map<string, string>): (shown: bool)
    ensures shown <==> IsAdmin(store)
  {
    IsAdmin(store)
  }

  /** `handleLogout`: clears the whole storage and goes to "/admin". The
      client's default header is not touched. */
  method Logout(session: Api.Session) returns (navigateTo: string)
    modifies session`store
    ensures session.store == map[] && navigateTo == "/admin"
    ensures !IsAdmin(session.store) && LogoTarget(session.store) == "/"
  {
    session.store := map[];
    navigateTo := "/admin";
  }
}
