/** The credential as the pages see it: the browser's cookie jar, the
    `document.cookie` text it yields, the token the pages parse out of that text,
    and the `Authorization` header built from it. */
module Cookies {
  import opened Wrappers

  // ---------------------------------------------------------------------------
  // String helpers

  predicate StartsWith(s: string, prefix: string) {
    |prefix| <= |s| && s[..|prefix|] == prefix
  }

  /** The text of `s` before the first `c`, or all of `s`. */
  function UpTo(s: string, c: char): (head: string)
    ensures c !in head
    ensures |head| <= |s| && head == s[..|head|]
    ensures head == s || s[|head|] == c
  {
    if s == [] then []
    else if s[0] == c then []
    else [s[0]] + UpTo(s[1..], c)
  }

  /** The text of `s` after the first `c`, or nothing when there is none. */
  function AfterFirst(s: string, c: char): string {
    if s == [] then []
    else if s[0] == c then s[1..]
    else AfterFirst(s[1..], c)
  }

  lemma UpToWhole(s: string, c: char)
    requires c !in s
    ensures UpTo(s, c) == s
  {
  }

  // ---------------------------------------------------------------------------
  // `document.cookie.split('; ')` and the jar that produces the text

  /** `s.split("; ")`: the pieces between occurrences of `"; "`, at least one. */
  function SplitEntries(s: string): (pieces: seq<string>)
    ensures |pieces| >= 1
  {
    if |s| < 2 then [s]
    else if s[0] == ';' && s[1] == ' ' then [""] + SplitEntries(s[2..])
    else
      var rest := SplitEntries(s[1..]);
      [[s[0]] + rest[0]] + rest[1..]
  }

  /** The inverse of SplitEntries: pieces joined with `"; "`. */
  function JoinEntries(pieces: seq<string>): string {
    if pieces == [] then ""
    else if |pieces| == 1 then pieces[0]
    else pieces[0] + "; " + JoinEntries(pieces[1..])
  }

  lemma {:induction false} SplitPlain(s: string)
    requires ';' !in s
    ensures SplitEntries(s) == [s]
  {
    if |s| >= 2 {
      SplitPlain(s[1..]);
      assert [s[0]] + s[1..] == s;
    }
  }

  lemma {:induction false} SplitFirst(head: string, tail: string)
    requires ';' !in head
    ensures SplitEntries(head + "; " + tail) == [head] + SplitEntries(tail)
  {
    var s := head + "; " + tail;
    if head == [] {
      assert s == "; " + tail && s[2..] == tail;
    } else {
      assert s[1..] == head[1..] + "; " + tail;
      SplitFirst(head[1..], tail);
      assert [head[0]] + head[1..] == head;
    }
  }

  /** Splitting undoes joining, as long as no piece contains `;`. */
  lemma {:induction false} SplitJoin(pieces: seq<string>)
    requires |pieces| >= 1
    requires forall i :: 0 <= i < |pieces| ==> ';' !in pieces[i]
    ensures SplitEntries(JoinEntries(pieces)) == pieces
  {
    if |pieces| == 1 {
      SplitPlain(pieces[0]);
    } else {
      SplitJoin(pieces[1..]);
      SplitFirst(pieces[0], JoinEntries(pieces[1..]));
      assert [pieces[0]] + pieces[1..] == pieces;
    }
  }


  /** After its first `c`, a text that starts with `head + [c]` is the rest, and
      before it, `head`. */
  lemma {:induction false} FirstSeparator(head: string, rest: string, c: char)
    requires c !in head
    ensures UpTo(head + [c] + rest, c) == head
    ensures AfterFirst(head + [c] + rest, c) == rest
  {
    var s := head + [c] + rest;
    if head == [] {
      assert s == [c] + rest;
    } else {
      assert s[1..] == head[1..] + [c] + rest;
      FirstSeparator(head[1..], rest, c);
      assert [head[0]] + head[1..] == head;
    }
  }

  /** One cookie of the jar. `maxAge` is the lifetime it was set with, if any. */
  datatype Cookie = Cookie(name: string, value: string, maxAge: Option<int>)

  /** A name non-empty and free of `=` and `;`, a value free of `;`. */
  predicate CookieOk(c: Cookie) {
    c.name != "" && '=' !in c.name && ';' !in c.name && ';' !in c.value
  }

  /** `request.cookies.get(name)?.value`: the first cookie of that name. */
  function Lookup(jar: seq<Cookie>, name: string): Option<string> {
    if jar == [] then None
    else if jar[0].name == name then Some(jar[0].value)
    else Lookup(jar[1..], name)
  }

  /** The jar's invariant, which the browser maintains: every cookie is well
      formed and no name occurs twice. */
  predicate WellFormedJar(jar: seq<Cookie>) {
    jar == [] || (CookieOk(jar[0]) && Lookup(jar[1..], jar[0].name) == None && WellFormedJar(jar[1..]))
  }

  lemma {:induction false} WellFormedMeaning(jar: seq<Cookie>)
    requires WellFormedJar(jar)
    ensures forall i :: 0 <= i < |jar| ==> CookieOk(jar[i])
    ensures forall i, j :: 0 <= i < j < |jar| ==> jar[i].name != jar[j].name
  {
    if jar != [] {
      WellFormedMeaning(jar[1..]);
      forall j | 0 < j < |jar| ensures jar[0].name != jar[j].name {
        LookupFinds(jar[1..], j - 1);
      }
      forall i, j | 0 <= i < j < |jar| ensures jar[i].name != jar[j].name {
        if i > 0 { assert jar[1..][i - 1] == jar[i] && jar[1..][j - 1] == jar[j]; }
      }
      forall i | 0 <= i < |jar| ensures CookieOk(jar[i]) {
        if i > 0 { assert jar[1..][i - 1] == jar[i]; }
      }
    }
  }

  lemma {:induction false} LookupFinds(jar: seq<Cookie>, k: nat)
    requires k < |jar|
    ensures Lookup(jar, jar[k].name).Some?
  {
    if k > 0 && jar[0].name != jar[k].name {
      LookupFinds(jar[1..], k - 1);
    }
  }

  function Entry(c: Cookie): string {
    c.name + "=" + c.value
  }

  function Entries(jar: seq<Cookie>): (rows: seq<string>)
    ensures |rows| == |jar|
    ensures forall i :: 0 <= i < |jar| ==> rows[i] == Entry(jar[i])
  {
    if jar == [] then [] else [Entry(jar[0])] + Entries(jar[1..])
  }

  /** `document.cookie`: `name=value` pairs, in jar order, joined with `"; "`. */
  function CookieText(jar: seq<Cookie>): string {
    JoinEntries(Entries(jar))
  }

  /** `document.cookie = "name=value; ..."`: the pair ends at the first `;`; an
      existing cookie of that name keeps its place and takes the new value,
      otherwise the cookie is appended. */
  function SetCookie(jar: seq<Cookie>, name: string, value: string, maxAge: Option<int>): seq<Cookie> {
    if jar == [] then [Cookie(name, UpTo(value, ';'), maxAge)]
    else if jar[0].name == name then [Cookie(name, UpTo(value, ';'), maxAge)] + jar[1..]
    else [jar[0]] + SetCookie(jar[1..], name, value, maxAge)
  }

  /** Assigning a cookie with an expiry date in the past deletes it. */
  function ExpireCookie(jar: seq<Cookie>, name: string): seq<Cookie> {
    if jar == [] then []
    else if jar[0].name == name then ExpireCookie(jar[1..], name)
    else [jar[0]] + ExpireCookie(jar[1..], name)
  }

  /** Reading back a cookie just set yields its value up to the first `;`; every
      other name reads as before. */
  lemma {:induction false} SetCookieLookup(jar: seq<Cookie>, name: string, value: string, maxAge: Option<int>, other: string)
    ensures Lookup(SetCookie(jar, name, value, maxAge), other) ==
      if other == name then Some(UpTo(value, ';')) else Lookup(jar, other)
  {
    if jar != [] && jar[0].name != name {
      SetCookieLookup(jar[1..], name, value, maxAge, other);
    }
  }

  /** Setting a well-formed cookie keeps the jar well formed. */
  lemma {:induction false} SetCookieWellFormed(jar: seq<Cookie>, name: string, value: string, maxAge: Option<int>)
    requires WellFormedJar(jar)
    requires name != "" && '=' !in name && ';' !in name
    ensures WellFormedJar(SetCookie(jar, name, value, maxAge))
  {
    if jar != [] && jar[0].name != name {
      SetCookieWellFormed(jar[1..], name, value, maxAge);
      SetCookieLookup(jar[1..], name, value, maxAge, jar[0].name);
    }
  }

  /** After expiry the name reads as absent; every other name reads as before. */
  lemma {:induction false} ExpireCookieLookup(jar: seq<Cookie>, name: string, other: string)
    ensures Lookup(ExpireCookie(jar, name), other) == if other == name then None else Lookup(jar, other)
  {
    if jar != [] {
      ExpireCookieLookup(jar[1..], name, other);
    }
  }

  /** Expiry keeps the jar well formed. */
  lemma {:induction false} ExpireCookieWellFormed(jar: seq<Cookie>, name: string)
    requires WellFormedJar(jar)
    ensures WellFormedJar(ExpireCookie(jar, name))
  {
    if jar != [] {
      ExpireCookieWellFormed(jar[1..], name);
      if jar[0].name != name {
        ExpireCookieLookup(jar[1..], name, jar[0].name);
      }
    }
  }

  // ---------------------------------------------------------------------------
  // Token extraction

  /** `.find(row => row.startsWith('token='))`. */
  function FindTokenRow(rows: seq<string>): Option<string> {
    if rows == [] then None
    else if StartsWith(rows[0], "token=") then Some(rows[0])
    else FindTokenRow(rows[1..])
  }

  /** `document.cookie.split('; ').find(row => row.startsWith('token='))?.split('=')[1]`. */
  function TokenFromCookie(cookie: string): Option<string> {
    match FindTokenRow(SplitEntries(cookie))
    case None => None
    case Some(row) => Some(UpTo(AfterFirst(row, '='), '='))
  }

  /** A token the pages treat as missing: `undefined` or the empty string. */
  predicate Falsy(token: Option<string>) {
    token == None || token == Some("")
  }

  lemma {:induction false} TokenFromRows(rows: seq<string>)
    ensures FindTokenRow(rows) == None <==> forall i :: 0 <= i < |rows| ==> !StartsWith(rows[i], "token=")
    ensures FindTokenRow(rows) != None ==>
      exists i :: 0 <= i < |rows| && StartsWith(rows[i], "token=") && FindTokenRow(rows) == Some(rows[i]) &&
        forall j :: 0 <= j < i ==> !StartsWith(rows[j], "token=")
  {
    if rows != [] && !StartsWith(rows[0], "token=") {
      TokenFromRows(rows[1..]);
      if FindTokenRow(rows) != None {
        var i :| 0 <= i < |rows[1..]| && StartsWith(rows[1..][i], "token=") && FindTokenRow(rows[1..]) == Some(rows[1..][i]) &&
          forall j :: 0 <= j < i ==> !StartsWith(rows[1..][j], "token=");
        assert rows[i + 1] == rows[1..][i];
        forall j | 0 <= j < i + 1 ensures !StartsWith(rows[j], "token=") {
          if j > 0 { assert rows[j] == rows[1..][j - 1]; }
        }
      }
    } else if rows != [] {
      assert StartsWith(rows[0], "token=");
    }
  }

  lemma TokenFromEntry(row: string)
    requires StartsWith(row, "token=")
    ensures AfterFirst(row, '=') == row[6..]
  {
    assert row == "token" + "=" + row[6..];
    FirstSeparator("token", row[6..], '=');
  }

  /** The parsed token is absent exactly when no `"; "`-separated entry starts with
      `token=`; otherwise it is the text of the first such entry between its
      first and second `=`. */
  lemma TokenFromCookieMeaning(cookie: string)
    ensures TokenFromCookie(cookie).None? ==>
      forall i :: 0 <= i < |SplitEntries(cookie)| ==> !StartsWith(SplitEntries(cookie)[i], "token=")
    ensures (forall i :: 0 <= i < |SplitEntries(cookie)| ==> !StartsWith(SplitEntries(cookie)[i], "token=")) ==>
      TokenFromCookie(cookie).None?
    ensures TokenFromCookie(cookie).Some? ==>
      exists i :: 0 <= i < |SplitEntries(cookie)| && StartsWith(SplitEntries(cookie)[i], "token=") &&
        (forall j :: 0 <= j < i ==> !StartsWith(SplitEntries(cookie)[j], "token=")) &&
        TokenFromCookie(cookie) == Some(UpTo(SplitEntries(cookie)[i][6..], '='))
  {
    var rows := SplitEntries(cookie);
    TokenFromRows(rows);
    if FindTokenRow(rows) != None {
      var i :| 0 <= i < |rows| && StartsWith(rows[i], "token=") && FindTokenRow(rows) == Some(rows[i]) &&
        forall j :: 0 <= j < i ==> !StartsWith(rows[j], "token=");
      TokenFromEntry(rows[i]);
    }
  }

  /** An entry of a well-formed cookie starts with `token=` exactly when the
      cookie is named `token`. */
  lemma EntryStartsWithToken(c: Cookie)
    requires c.name != "" && '=' !in c.name
    ensures StartsWith(Entry(c), "token=") <==> c.name == "token"
  {
    var e := Entry(c);
    assert e == c.name + "=" + c.value;
    FirstSeparator(c.name, c.value, '=');
    if StartsWith(e, "token=") {
      assert e == "token" + "=" + e[6..];
      FirstSeparator("token", e[6..], '=');
    }
  }

  lemma {:induction false} FindTokenInJar(jar: seq<Cookie>)
    requires WellFormedJar(jar)
    ensures FindTokenRow(Entries(jar)) == (match Lookup(jar, "token") case None => None case Some(v) => Some("token=" + v))
  {
    if jar != [] {
      EntryStartsWithToken(jar[0]);
      assert Entries(jar)[1..] == Entries(jar[1..]);
      FindTokenInJar(jar[1..]);
    }
  }

  /** The token the pages parse out of `document.cookie` is the `token` cookie's
      value up to its first `=`, and is absent exactly when there is no such
      cookie; for a value without `=` (a JWT) it is the value itself. */
  lemma CookieTextToken(jar: seq<Cookie>)
    requires WellFormedJar(jar)
    ensures TokenFromCookie(CookieText(jar)) == (match Lookup(jar, "token") case None => None case Some(v) => Some(UpTo(v, '=')))
    ensures Lookup(jar, "token").Some? && '=' !in Lookup(jar, "token").value ==>
      TokenFromCookie(CookieText(jar)) == Lookup(jar, "token")
  {
    var rows := Entries(jar);
    if jar == [] {
      assert CookieText(jar) == "";
      assert SplitEntries("") == [""];
    } else {
      WellFormedMeaning(jar);
      forall i | 0 <= i < |rows| ensures ';' !in rows[i] {
        assert rows[i] == jar[i].name + "=" + jar[i].value;
      }
      SplitJoin(rows);
      assert SplitEntries(CookieText(jar)) == rows;
    }
    FindTokenInJar(jar);
    match Lookup(jar, "token")
    case None =>
    case Some(v) =>
      TokenFromEntry("token=" + v);
      assert ("token=" + v)[6..] == v;
  }

  // ---------------------------------------------------------------------------
  // The Authorization header

  /** A JavaScript value interpolated into a template string. */
  datatype JsText = Undefined | Null | Text(s: string)

  function Show(v: JsText): string {
    match v
    case Undefined => "undefined"
    case Null => "null"
    case Text(s) => s
  }

  /** `` `Bearer ${token}` ``. */
  function Bearer(token: JsText): (header: string)
    ensures StartsWith(header, "Bearer ") && header[7..] == Show(token)
  {
    "Bearer " + Show(token)
  }

  /** The cookie token as a JavaScript value: `undefined` when absent. */
  function CookieToken(cookie: string): JsText {
    match TokenFromCookie(cookie)
    case None => Undefined
    case Some(s) => Text(s)
  }

  /** `localStorage.getItem("token")`: `null` when absent. */
  function StoredToken(item: Option<string>): JsText {
    match item
    case None => Null
    case Some(s) => Text(s)
  }

  datatype Headers = Headers(authorization: string, contentType: string)

  /** `getAuthHeaders()` / `useAuthHeaders()`: a bearer header from the cookie
      token, sent even when there is none (as `Bearer undefined`). */
  function AuthHeaders(cookie: string): (h: Headers)
    ensures h.contentType == "application/json"
    ensures TokenFromCookie(cookie) == None ==> h.authorization == "Bearer undefined"
    ensures forall t :: TokenFromCookie(cookie) == Some(t) ==> h.authorization == "Bearer " + t
  {
    Headers(Bearer(CookieToken(cookie)), "application/json")
  }

  /** The header a well-formed jar yields: `Bearer undefined` without a `token`
      cookie, `Bearer ` and the value up to its first `=` with one. */
  lemma JarAuthorization(jar: seq<Cookie>)
    requires WellFormedJar(jar)
    ensures Lookup(jar, "token") == None ==> AuthHeaders(CookieText(jar)).authorization == "Bearer undefined"
    ensures forall v :: Lookup(jar, "token") == Some(v) ==>
      AuthHeaders(CookieText(jar)).authorization == "Bearer " + UpTo(v, '=')
  {
    CookieTextToken(jar);
  }
}
