/**
 * The page-access middleware: for a request path and the `token` cookie it
 * lets the request through, redirects to `/login`, or redirects to `/login`
 * and deletes the cookie. The checks run in order and the first that
 * decides wins: bypassed paths, public paths, cookie presence, token shape.
 * The token is never verified here, only split on dots.
 */
module Gate {
  import opened Wrappers
  import opened Text

  datatype Decision = Pass | RedirectToLogin | RedirectAndDeleteCookie

  /** Framework assets, API routes, static files and anything that looks like a file name. */
  predicate Bypassed(path: string) {
    || StartsWith(path, "/_next/")
    || StartsWith(path, "/api/")
    || StartsWith(path, "/static/")
    || Includes(path, ".")
    || path == "/favicon.ico"
  }

  const PublicPaths: seq<string> := ["/", "/login", "/register"]

  /** `token.split('.').length === 3` */
  predicate ThreeSegments(token: string) {
    |Split(token, '.')| == 3
  }

  /** `middleware(request)`; `token` is the cookie's value, `None` when there is no cookie. */
  function Middleware(path: string, token: Option<string>): (d: Decision)
    ensures Bypassed(path) || path in PublicPaths ==> d == Pass
    ensures d == RedirectToLogin <==> !Bypassed(path) && path !in PublicPaths && (token.None? || token.value == "")
    ensures d == RedirectAndDeleteCookie <==>
      && !Bypassed(path) && path !in PublicPaths
      && token.Some? && token.value != "" && CountChar(token.value, '.') != 2
    ensures d == Pass && !Bypassed(path) && path !in PublicPaths ==>
      token.Some? && CountChar(token.value, '.') == 2
  {
    if Bypassed(path) then Pass
    else if path in PublicPaths then Pass
    else if token.None? || token.value == "" then RedirectToLogin
    else if ThreeSegments(token.value) then Pass
    else RedirectAndDeleteCookie
  }

  /** A token passes the shape check exactly when it contains two dots, whatever surrounds them. */
  lemma ThreeSegmentsIsTwoDots(token: string)
    ensures ThreeSegments(token) <==> CountChar(token, '.') == 2
  {
  }

  /** Only the shape is checked: a cookie holding nothing but two dots opens every protected page. */
  lemma {:induction false} TwoDotsPass(path: string)
    requires !Bypassed(path) && path !in PublicPaths
    ensures Middleware(path, Some("..")) == Pass
  {
    assert CountChar("..", '.') == 1 + CountChar(".", '.');
    assert CountChar(".", '.') == 1 + CountChar("", '.');
  }

  /** The `/favicon.ico` test never decides anything: the dot test has already let that path through. */
  lemma FaviconCoveredByDot()
    ensures Includes("/favicon.ico", ".")
  {
    var p := "/favicon.ico";
    IncludesChar(p, '.');
    assert p[8] == '.';
  }

  /** A path with a dot anywhere, `/dashboard.json` say, is never protected. */
  lemma DottedPathsUnprotected(path: string, token: Option<string>)
    requires '.' in path
    ensures Middleware(path, token) == Pass
  {
    IncludesChar(path, '.');
  }
}
