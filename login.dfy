/** The login form's `handleSubmit`: one form-encoded request, then either an
    error message or both credential stores written and a redirect. */
module Login {
  import opened Wrappers
  import opened Cookies
  import opened BrowserStore

  /** The response to `POST /api/login` as the page sees it: ok with the body's
      `access_token`, not ok with the body's `detail` (if any), or an error thrown
      by `fetch` or by decoding the body. */
  datatype LoginReply = Granted(accessToken: string) | Denied(detail: Option<string>) | Failed

  /** The `application/x-www-form-urlencoded` body, as its list of fields. */
  datatype LoginRequest = LoginRequest(fields: seq<(string, string)>)

  /** The body `handleSubmit` builds from the two controlled inputs. */
  function LoginBody(username: string, password: string): LoginRequest
  {
    LoginRequest([("username", username), ("password", password)])
  }

  /** The value a form decoder reads for `key`: that of the first field so named. */
  function FormField(fields: seq<(string, string)>, key: string): Option<string>
  {
    if |fields| == 0 then None
    else if fields[0].0 == key then Some(fields[0].1)
    else FormField(fields[1..], key)
  }

  /** The server's `OAuth2PasswordRequestForm` reads back exactly what was typed
      into the two inputs, and no other field. */
  lemma LoginBodyReadsTyped(username: string, password: string, key: string)
    ensures FormField(LoginBody(username, password).fields, "username") == Some(username)
    ensures FormField(LoginBody(username, password).fields, "password") == Some(password)
    ensures key != "username" && key != "password" ==> FormField(LoginBody(username, password).fields, key) == None
  {
    var fields := LoginBody(username, password).fields;
    assert "password"[0] != "username"[0];
    assert fields[1..][1..] == [];
    if key != "username" && key != "password" {
      assert FormField(fields, key) == FormField(fields[1..], key) == FormField(fields[1..][1..], key);
    }
  }

  const InvalidCredentials := "Invalid credentials"
  const ConnectFailure := "Failed to connect to server. Check if backend is running."
  const TokenLifetime := 86400

  /** `data.detail || "Invalid credentials"`. */
  function DeniedMessage(detail: Option<string>): (msg: string)
    ensures Falsy(detail) ==> msg == InvalidCredentials
    ensures !Falsy(detail) ==> msg == detail.value
  {
    if Falsy(detail) then InvalidCredentials else detail.value
  }

  /** The cookie written at login parses back to the token that localStorage
      receives, whatever else the jar holds, as long as the token has no `;` or
      `=` (a JWT has neither); the headers then carry `Bearer <token>`. */
  lemma LoginStoresAgree(jar: seq<Cookie>, token: string)
    requires WellFormedJar(jar)
    requires ';' !in token && '=' !in token
    ensures TokenFromCookie(CookieText(SetCookie(jar, "token", token, Some(TokenLifetime)))) == Some(token)
    ensures AuthHeaders(CookieText(SetCookie(jar, "token", token, Some(TokenLifetime)))).authorization == "Bearer " + token
  {
    var after := SetCookie(jar, "token", token, Some(TokenLifetime));
    SetCookieWellFormed(jar, "token", token, Some(TokenLifetime));
    SetCookieLookup(jar, "token", token, Some(TokenLifetime), "token");
    UpToWhole(token, ';');
    UpToWhole(token, '=');
    CookieTextToken(after);
  }

  /** After logout the cookie reads as absent, so the dashboard's requests carry
      `Bearer undefined`; localStorage, which the list pages read, is not
      cleared (see `ClientPages.Dashboard.HandleLogout`). */
  lemma LogoutClearsCookieToken(jar: seq<Cookie>)
    requires WellFormedJar(jar)
    ensures TokenFromCookie(CookieText(Cookies.ExpireCookie(jar, "token"))) == None
    ensures AuthHeaders(CookieText(Cookies.ExpireCookie(jar, "token"))).authorization == "Bearer undefined"
  {
    ExpireCookieWellFormed(jar, "token");
    ExpireCookieLookup(jar, "token", "token");
    CookieTextToken(Cookies.ExpireCookie(jar, "token"));
  }

  class LoginPage {
    var username: string
    var password: string
    var error: string
    var loading: bool
    const browser: Browser

    constructor(browser: Browser)
      ensures username == "" && password == "" && error == "" && !loading && this.browser == browser
    {
      username, password, error, loading := "", "", "", false;
      this.browser := browser;
    }

    /** The username input's `onChange`. */
    method SetUsername(text: string)
      modifies this
      ensures username == text
      ensures password == old(password) && error == old(error) && loading == old(loading)
    {
      username := text;
    }

    /** The password input's `onChange`. */
    method SetPassword(text: string)
      modifies this
      ensures password == text
      ensures username == old(username) && error == old(error) && loading == old(loading)
    {
      password := text;
    }

    /** `handleSubmit`. On success the cookie is written with a one-day
        lifetime, `loading` stays set while the page is replaced; on either
        failure no store is touched and `loading` is cleared. */
    method HandleSubmit(reply: LoginReply) returns (sent: LoginRequest, nav: Option<Nav>)
      requires browser.Valid()
      modifies this, browser
      ensures browser.Valid()
      ensures sent == LoginBody(old(username), old(password))
      ensures username == old(username) && password == old(password)
      ensures reply.Granted? ==>
        && browser.storage == old(browser.storage)["token" := reply.accessToken]
        && browser.jar == SetCookie(old(browser.jar), "token", reply.accessToken, Some(TokenLifetime))
        && error == "" && loading && nav == Some(Replace("/dashboard"))
      ensures reply.Denied? ==>
        && browser.storage == old(browser.storage) && browser.jar == old(browser.jar)
        && error == DeniedMessage(reply.detail) && !loading && nav == None
      ensures reply.Failed? ==>
        && browser.storage == old(browser.storage) && browser.jar == old(browser.jar)
        && error == ConnectFailure && !loading && nav == None
    {
      error := "";
      loading := true;
      sent := LoginBody(username, password);
      nav := None;
      match reply
      case Failed =>
        error := ConnectFailure;
        loading := false;
      case Denied(detail) =>
        error := DeniedMessage(detail);
        loading := false;
      case Granted(token) =>
        browser.SetItem("token", token);
        browser.WriteCookie("token", token, Some(TokenLifetime));
        nav := Some(Replace("/dashboard"));
    }
  }
}
