/** The edge middleware (src/middleware.ts): a visitor with a live session
    who opens the sign-in page is sent to the home page. */
module Middleware {
  import opened Models
  import Helpers

  /** The fields of the session token the middleware reads: the login time
      (None when it does not parse as a date) and the lifetime in minutes. */
  datatype Token = Token(loginMs: Option<int>, expiresIn: int)

  /** A redirect, or nothing (the request continues). */
  datatype Response = Redirect(url: string) | Continue

  function Decide(pathname: string, origin: string, token: Option<Token>, nowMs: int): (r: Response)
    ensures r.Redirect? ==> r.url == origin
    ensures pathname != "/login" ==> r == Continue
    ensures token.None? ==> r == Continue
    ensures r.Redirect? <==>
      pathname == "/login" && token.Some?
      && Helpers.IsExpiredTimeToken(token.value.loginMs, token.value.expiresIn, nowMs)
  {
    if pathname == "/login" && token.Some?
       && Helpers.IsExpiredTimeToken(token.value.loginMs, token.value.expiresIn, nowMs)
    then Redirect(origin)
    else Continue
  }

  /** Redirects stop once the session runs out: a token that no longer
      redirects at some moment does not redirect at any later one. */
  lemma RedirectStopsAfterExpiry(origin: string, token: Token, nowMs: int, laterMs: int)
    requires nowMs <= laterMs
    requires Decide("/login", origin, Some(token), nowMs) == Continue
    ensures Decide("/login", origin, Some(token), laterMs) == Continue
  {
    if Decide("/login", origin, Some(token), laterMs).Redirect? {
      Helpers.TokenLifetimeMonotone(token.loginMs, token.expiresIn, nowMs, laterMs);
    }
  }

  /** A session within its lifetime is redirected: login at `t` with a
      lifetime of `m` minutes redirects at every moment before t + m minutes. */
  lemma RedirectWithinLifetime(origin: string, t: int, m: int, nowMs: int)
    requires nowMs < t + m * 60000
    ensures Decide("/login", origin, Some(Token(Some(t), m)), nowMs) == Redirect(origin)
  {
  }
}
