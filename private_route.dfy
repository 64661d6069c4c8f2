/** The guard in front of the admin routes. */
module PrivateRoute {

  datatype Route = Children | Redirect(to: string)

  /** The guard lets through only a non-empty `access` entry together with
      the role written exactly "admin"; everything else goes to "/admin". */
  function Guard(store: map<string, string>): (r: Route)
    ensures r.Children? <==>
              "access" in store && store["access"] != "" && "role" in store && store["role"] == "admin"
    ensures r.Redirect? ==> r.to == "/admin"
  {
    var hasToken := "access" in store && store["access"] != "";
    var isAdmin := "role" in store && store["role"] == "admin";
    if !hasToken || !isAdmin then Redirect("/admin") else Children
  }

  /** Without a token the role does not matter, and a role written in any
      other case than "admin" is refused. */
  lemma GuardRefusals(store: map<string, string>)
    ensures "access" !in store ==> Guard(store) == Redirect("/admin")
    ensures "role" in store && store["role"] == "Admin" ==> Guard(store) == Redirect("/admin")
  {
  }
}
