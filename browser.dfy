/** The browser state the pages share: the cookie jar behind `document.cookie`
    and `localStorage`, plus the navigation events the router is asked for. */
module BrowserStore {
  import opened Wrappers
  import opened Cookies

  /** `router.push(path)` and `router.replace(path)`. */
  datatype Nav = Push(path: string) | Replace(path: string)

  class Browser {
    var jar: seq<Cookie>
    var storage: map<string, string>

    predicate Valid()
      reads this
    {
      WellFormedJar(jar)
    }

    constructor()
      ensures Valid() && jar == [] && storage == map[]
    {
      jar := [];
      storage := map[];
    }

    /** `document.cookie` as read. */
    function CookieString(): string
      reads this
    {
      CookieText(jar)
    }

    /** `localStorage.getItem(key)`. */
    function GetItem(key: string): (item: Option<string>)
      reads this
      ensures item.Some? <==> key in storage
      ensures key in storage ==> item == Some(storage[key])
    {
      if key in storage then Some(storage[key]) else None
    }

    /** `document.cookie = "name=value; ..."`; only the pair up to the first `;`
        is stored, under the given lifetime. */
    method WriteCookie(name: string, value: string, maxAge: Option<int>)
      requires Valid()
      requires name != "" && '=' !in name && ';' !in name
      modifies this
      ensures Valid()
      ensures jar == SetCookie(old(jar), name, value, maxAge)
      ensures Lookup(jar, name) == Some(UpTo(value, ';'))
      ensures forall other :: other != name ==> Lookup(jar, other) == Lookup(old(jar), other)
      ensures storage == old(storage)
    {
      SetCookieWellFormed(jar, name, value, maxAge);
      forall other ensures Lookup(SetCookie(jar, name, value, maxAge), other) ==
        if other == name then Some(UpTo(value, ';')) else Lookup(jar, other)
      {
        SetCookieLookup(jar, name, value, maxAge, other);
      }
      jar := SetCookie(jar, name, value, maxAge);
    }

    /** `document.cookie = "name=; expires=Thu, 01 Jan 1970 ..."`. */
    method ExpireCookie(name: string)
      requires Valid()
      modifies this
      ensures Valid()
      ensures jar == Cookies.ExpireCookie(old(jar), name)
      ensures Lookup(jar, name) == None
      ensures forall other :: other != name ==> Lookup(jar, other) == Lookup(old(jar), other)
      ensures storage == old(storage)
    {
      ExpireCookieWellFormed(jar, name);
      forall other ensures Lookup(Cookies.ExpireCookie(jar, name), other) ==
        if other == name then None else Lookup(jar, other)
      {
        ExpireCookieLookup(jar, name, other);
      }
      jar := Cookies.ExpireCookie(jar, name);
    }

    /** `localStorage.setItem(key, value)`. */
    method SetItem(key: string, value: string)
      modifies this
      ensures storage == old(storage)[key := value]
      ensures jar == old(jar)
    {
      storage := storage[key := value];
    }
  }
}
