/** Route gating: the edge middleware's redirect decision and the client-side
    `AuthProvider` effect with its (`isAuthenticated`, `isLoading`) state. */
module SessionGate {
  import opened Wrappers
  import opened Cookies
  import opened BrowserStore

  // ---------------------------------------------------------------------------
  // Middleware

  /** `pathname.startsWith('/dashboard') || pathname.startsWith('/tasks')`: a plain
      prefix test, shared by the middleware and the provider. */
  predicate IsProtected(path: string) {
    StartsWith(path, "/dashboard") || StartsWith(path, "/tasks")
  }

  datatype Decision = Next | Redirect(target: string)

  /** The middleware's answer for a path and the `token` cookie's value. */
  function Middleware(pathname: string, token: Option<string>): Decision {
    if IsProtected(pathname) && Falsy(token) then Redirect("/login")
    else if pathname == "/login" && !Falsy(token) then Redirect("/dashboard")
    else Next
  }

  /** The middleware's matcher: `/dashboard/:path*`, `/tasks/:path*` and `/login`;
      the middleware never sees any other path. */
  predicate Matched(path: string) {
    path == "/dashboard" || StartsWith(path, "/dashboard/") ||
    path == "/tasks" || StartsWith(path, "/tasks/") ||
    path == "/login"
  }

  /** What a request of the browser meets at the edge. */
  function Gate(pathname: string, jar: seq<Cookie>): Decision {
    if Matched(pathname) then Middleware(pathname, Lookup(jar, "token")) else Next
  }

  lemma LoginNotProtected()
    ensures !IsProtected("/login")
  {
    assert "/login"[..6][1] == 'l';
  }

  /** Each outcome of the middleware, both directions: a protected path without a
      (non-empty) token goes to `/login`, `/login` with one goes to `/dashboard`,
      and everything else passes. The two redirect conditions never overlap. */
  lemma MiddlewareOutcomes(pathname: string, token: Option<string>)
    ensures Middleware(pathname, token) == Redirect("/login") <==> IsProtected(pathname) && Falsy(token)
    ensures Middleware(pathname, token) == Redirect("/dashboard") <==> pathname == "/login" && !Falsy(token)
    ensures Middleware(pathname, token) == Next <==>
      !(IsProtected(pathname) && Falsy(token)) && !(pathname == "/login" && !Falsy(token))
    ensures !(IsProtected(pathname) && Falsy(token) && pathname == "/login" && !Falsy(token))
  {
    LoginNotProtected();
  }

  /** A protected path with a token passes, and so does `/auth/login` whatever
      the token, since only `/login` counts as the login page here. */
  lemma MiddlewarePasses(pathname: string, token: string)
    ensures IsProtected(pathname) && token != "" ==> Middleware(pathname, Some(token)) == Next
    ensures Middleware("/auth/login", Some(token)) == Next
    ensures Middleware("/auth/login", None) == Next
  {
    LoginNotProtected();
    assert !IsProtected("/auth/login") by {
      assert "/auth/login"[..6][1] == 'a';
      assert "/auth/login"[..10][1] == 'a';
    }
  }

  /** The matcher covers only part of the protected prefix: `/tasksX` is
      protected but never reaches the middleware, so it is let through without a
      token, while `/tasks/all-tasks` is redirected. */
  lemma MatcherNarrowerThanPrefix()
    ensures IsProtected("/tasksX") && Gate("/tasksX", []) == Next
    ensures Gate("/tasks/all-tasks", []) == Redirect("/login")
    ensures forall path, jar :: Matched(path) ==> Gate(path, jar) == Middleware(path, Lookup(jar, "token"))
  {
    assert "/tasksX"[..6] == "/tasks";
    assert !StartsWith("/tasksX", "/tasks/") by { assert "/tasksX"[..7][6] == 'X'; }
    assert !StartsWith("/tasksX", "/dashboard/");
    assert "/tasks/all-tasks"[..6] == "/tasks";
    assert "/tasks/all-tasks"[..7] == "/tasks/";
  }

  // ---------------------------------------------------------------------------
  // AuthProvider

  /** The provider's state after one run of its effect, and where it navigates. */
  datatype AuthState = AuthState(isAuthenticated: bool, isLoading: bool)

  function Effect(s: AuthState, pathname: string, cookie: string): (AuthState, Option<Nav>) {
    if !IsProtected(pathname) then (s.(isLoading := false), None)
    else if Falsy(TokenFromCookie(cookie)) then (s, Some(Push("/auth/login")))
    else (AuthState(true, false), None)
  }

  /** The effect's cases: off the protected prefix only loading ends; without a
      token it navigates to `/auth/login` and leaves the state alone; with one
      it ends authenticated and loaded. It never navigates elsewhere, and it
      never clears `isAuthenticated`. */
  lemma EffectOutcomes(s: AuthState, pathname: string, cookie: string)
    ensures !IsProtected(pathname) ==> Effect(s, pathname, cookie) == (AuthState(s.isAuthenticated, false), None)
    ensures IsProtected(pathname) && Falsy(TokenFromCookie(cookie)) ==>
      Effect(s, pathname, cookie) == (s, Some(Push("/auth/login")))
    ensures IsProtected(pathname) && !Falsy(TokenFromCookie(cookie)) ==>
      Effect(s, pathname, cookie) == (AuthState(true, false), None)
    ensures Effect(s, pathname, cookie).1.Some? <==> IsProtected(pathname) && Falsy(TokenFromCookie(cookie))
    ensures s.isAuthenticated ==> Effect(s, pathname, cookie).0.isAuthenticated
  {
  }

  /** Once loaded, the provider stays loaded: expiring the cookie (logout) and
      then visiting a protected page navigates away but leaves a stale
      `isAuthenticated = true` in place. */
  lemma StaleAfterLogout(pathname: string)
    requires IsProtected(pathname)
    ensures Effect(AuthState(true, false), pathname, CookieText([])) ==
      (AuthState(true, false), Some(Push("/auth/login")))
  {
    assert CookieText([]) == "";
    assert SplitEntries("") == [""];
  }

  /** For a jar whose token has no `=` (a JWT), the provider and the middleware
      agree on every matched protected path: the provider navigates to the login
      page exactly when the middleware would have redirected there, though to
      `/auth/login` rather than `/login`. */
  lemma ProviderAgreesWithMiddleware(s: AuthState, pathname: string, jar: seq<Cookie>)
    requires WellFormedJar(jar)
    requires Lookup(jar, "token").Some? ==> '=' !in Lookup(jar, "token").value
    requires Matched(pathname) && IsProtected(pathname)
    ensures Effect(s, pathname, CookieText(jar)).1 == Some(Push("/auth/login")) <==>
      Gate(pathname, jar) == Redirect("/login")
  {
    CookieTextToken(jar);
  }

  class AuthProvider {
    var isAuthenticated: bool
    var isLoading: bool
    const browser: Browser

    constructor(browser: Browser)
      ensures !isAuthenticated && isLoading && this.browser == browser
    {
      isAuthenticated := false;
      isLoading := true;
      this.browser := browser;
    }

    function State(): AuthState
      reads this
    {
      AuthState(isAuthenticated, isLoading)
    }

    /** The `useEffect` body, run for the current pathname. */
    method RunEffect(pathname: string) returns (nav: Option<Nav>)
      modifies this
      ensures (State(), nav) == Effect(old(State()), pathname, browser.CookieString())
    {
      nav := None;
      if !IsProtected(pathname) {
        isLoading := false;
        return;
      }
      var token := TokenFromCookie(browser.CookieString());
      if Falsy(token) {
        nav := Some(Push("/auth/login"));
        return;
      }
      isAuthenticated := true;
      isLoading := false;
    }
  }

  /** `useAuthHeaders()`. */
  function UseAuthHeaders(browser: Browser): (h: Headers)
    reads browser
    ensures h.contentType == "application/json" && StartsWith(h.authorization, "Bearer ")
    ensures browser.Valid() && Lookup(browser.jar, "token") == None ==> h.authorization == "Bearer undefined"
    ensures forall v :: browser.Valid() && Lookup(browser.jar, "token") == Some(v) ==>
      h.authorization == "Bearer " + UpTo(v, '=')
  {
    if browser.Valid() then (JarAuthorization(browser.jar); AuthHeaders(browser.CookieString()))
    else AuthHeaders(browser.CookieString())
  }
}
