/** The login gate every request passes through. */
module Middleware {

  const STATIC_PREFIX := "/static/"
  const LOGIN_PATH := "/user/login/"

  datatype Response = PassThrough | RedirectToLogin

  /**
   * `CheckAuthenticated.__call__`: static files always pass; otherwise a user
   * who is not authenticated is sent to the login page unless the request is
   * for the login page itself.
   */
  function Gate(path: string, authenticated: bool): (r: Response)
    ensures STATIC_PREFIX <= path ==> r == PassThrough
    ensures authenticated ==> r == PassThrough
    ensures path == LOGIN_PATH ==> r == PassThrough
    ensures r == RedirectToLogin <==> !(STATIC_PREFIX <= path) && !authenticated && path != LOGIN_PATH
  {
    if STATIC_PREFIX <= path then PassThrough
    else if !authenticated && path != LOGIN_PATH then RedirectToLogin
    else PassThrough
  }

  /**
   * The redirect does not loop: whoever is sent to the login page is let
   * through when they request it. This rests on the login view being
   * mounted at LOGIN_PATH, which the URL configuration decides.
   */
  lemma RedirectTargetPasses(path: string, authenticated: bool)
    ensures Gate(path, authenticated) == RedirectToLogin ==> Gate(LOGIN_PATH, authenticated) == PassThrough
  {
  }
}
