/** The guard in front of the board (src/routes/ProtectedRoute.tsx). */
module ProtectedRoute {

  /** What the guard renders: an empty placeholder, the protected page, or a
      redirect to a path. */
  datatype View = Placeholder | Children | Redirect(to: string)

  /** The guard's decision from the session's `loading` and `isAuthenticated`
      flags: the placeholder while loading, whatever the session says; after
      that the page when authenticated and a redirect to "/login" otherwise. */
  function Decide(loading: bool, isAuthenticated: bool): (v: View)
    ensures v == Placeholder <==> loading
    ensures v == Children <==> !loading && isAuthenticated
    ensures v.Redirect? <==> !loading && !isAuthenticated
    ensures v.Redirect? ==> v.to == "/login"
  {
    if loading then Placeholder
    else if isAuthenticated then Children
    else Redirect("/login")
  }
}
