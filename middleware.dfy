/**
 * The request gate run before every matched request: upgrade plain-HTTP
 * requests to HTTPS, keep signed-out visitors out of the dashboard, and send
 * signed-in visitors from the sign-in page to the dashboard.
 */
module Gate {
  import opened Types

  /** The parts of a request URL the gate reads or rewrites. */
  datatype Url = Url(protocol: string, host: string, pathname: string, search: string)

  /** A request: its `x-forwarded-proto` header (if sent) and its URL. */
  datatype Request = Request(forwardedProto: Option<string>, nextUrl: Url)

  /**
   * What the gate answers: a 301 redirect, a redirect with the framework's
   * default status, or letting the request through to the page.
   */
  datatype Response =
    | PermanentRedirect(location: Url)
    | Redirect(location: Url)
    | PassThrough

  /** `pathname.startsWith('/dashboard')`: any path with that prefix is protected. */
  predicate IsProtected(pathname: string) {
    "/dashboard" <= pathname
  }

  /**
   * The gate's decision; `user` is what the auth lookup returned (the user's id,
   * or nothing). Every redirect points at the request URL with exactly one field
   * changed.
   */
  function Middleware(req: Request, user: Option<string>): (r: Response)
    ensures r.PermanentRedirect? ==> r.location == req.nextUrl.(protocol := "https")
    ensures r.Redirect? ==> (r.location == req.nextUrl.(pathname := "/")
                          || r.location == req.nextUrl.(pathname := "/dashboard"))
  {
    if req.forwardedProto == Some("http") then
      PermanentRedirect(req.nextUrl.(protocol := "https"))
    else if user.None? && IsProtected(req.nextUrl.pathname) then
      Redirect(req.nextUrl.(pathname := "/"))
    else if user.Some? && req.nextUrl.pathname == "/" then
      Redirect(req.nextUrl.(pathname := "/dashboard"))
    else
      PassThrough
  }

  /**
   * A plain-HTTP request is upgraded before the user is looked at: the answer is
   * the same 301 whoever is signed in and whatever the path; no other header
   * value (absent, "https", anything else) triggers the upgrade.
   */
  lemma HttpsUpgradeFirst(req: Request, user: Option<string>, other: Option<string>)
    ensures Middleware(req, user).PermanentRedirect? <==> req.forwardedProto == Some("http")
    ensures req.forwardedProto == Some("http") ==>
      Middleware(req, user) == Middleware(req, other) == PermanentRedirect(req.nextUrl.(protocol := "https"))
  {
  }

  /** A signed-out request under `/dashboard` is sent to `/`, and only such a request is. */
  lemma SignedOutLeavesDashboard(req: Request, user: Option<string>)
    ensures Middleware(req, user) == Redirect(req.nextUrl.(pathname := "/"))
        <==> req.forwardedProto != Some("http") && user.None? && IsProtected(req.nextUrl.pathname)
  {
  }

  /** A signed-in request for exactly `/` is sent to `/dashboard`, and only such a request is. */
  lemma SignedInSkipsHome(req: Request, user: Option<string>)
    ensures Middleware(req, user) == Redirect(req.nextUrl.(pathname := "/dashboard"))
        <==> req.forwardedProto != Some("http") && user.Some? && req.nextUrl.pathname == "/"
  {
  }

  /**
   * The two sign-in redirects never apply to the same request (they need
   * opposite answers from the auth lookup, and no protected path is `/`), and every other
   * request (a signed-in visitor on the dashboard, a signed-out one on `/`, ...)
   * passes through.
   */
  lemma AuthRedirectsExclusive(req: Request, user: Option<string>)
    ensures !(IsProtected(req.nextUrl.pathname) && req.nextUrl.pathname == "/")
    ensures Middleware(req, user) == PassThrough
        <==> (req.forwardedProto != Some("http")
              && !(user.None? && IsProtected(req.nextUrl.pathname))
              && !(user.Some? && req.nextUrl.pathname == "/"))
  {
  }

  /**
   * The request a browser sends after following `r`: to its location, and over
   * HTTPS once it has been upgraded.
   */
  function FollowUp(req: Request, r: Response): (next: Request)
    requires r.PermanentRedirect? || r.Redirect?
  {
    Request(if r.PermanentRedirect? then Some("https") else req.forwardedProto, r.location)
  }

  /**
   * No redirect loop: with the same user, following the gate's redirects
   * reaches a request that passes through after at most two hops.
   */
  lemma RedirectsSettle(req: Request, user: Option<string>)
    ensures var r1 := Middleware(req, user);
      r1 == PassThrough
      || (var req2 := FollowUp(req, r1);
          var r2 := Middleware(req2, user);
          r2 == PassThrough
          || (r2.Redirect? && Middleware(FollowUp(req2, r2), user) == PassThrough))
  {
  }
}
