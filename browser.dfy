/**
 * The user agent on the other side of the handlers, as an independent
 * reference: how it stores the cookies a response sets, and what repeated
 * requests to `cookie` and a request to `logout` leave in its cookie jar.
 */
module Browser {
  import opened Wrappers
  import Int32
  import Handlers

  /** The browser's cookies for this site, by name. */
  type Jar = map<string, string>

  /**
   * How a user agent stores a `Set-Cookie` (sections 5.2.2 and 5.3 of RFC 6265): a
   * Max-Age of zero or less expires the cookie at once, which removes any
   * stored cookie of that name; otherwise the new value replaces the old one.
   */
  function Store(jar: Jar, c: Handlers.Cookie): (after: Jar)
    ensures c.name in after <==> c.maxAge.None? || c.maxAge.value > 0
    ensures c.name in after ==> after[c.name] == c.value
    ensures forall n :: n != c.name ==> (n in after <==> n in jar)
    ensures forall n :: n != c.name && n in jar ==> after[n] == jar[n]
  {
    if c.maxAge.Some? && c.maxAge.value <= 0 then jar - {c.name} else jar[c.name := c.value]
  }

  function StoreAll(jar: Jar, cookies: seq<Handlers.Cookie>): Jar
    decreases |cookies|
  {
    if cookies == [] then jar else StoreAll(Store(jar, cookies[0]), cookies[1..])
  }

  /** One request to `cookie` from a browser holding `jar`, and the jar afterwards. */
  function VisitCookie(jar: Jar): (r: (Handlers.CookiePage, Jar))
    requires "counter" in jar ==> Int32.Parse(jar["counter"]) != Some(Int32.MaxI32)
  {
    var page := Handlers.CookieHandler(if "counter" in jar then Some(jar["counter"]) else None);
    (page, Store(jar, page.setCookie))
  }

  /**
   * The cookie round trip: a browser whose `counter` cookie holds what the
   * previous response stored, the decimal of `v`, is given the decimal of
   * `v + 1`, every other cookie untouched. Applied after `FirstVisit`, one
   * request at a time, this is why a fresh browser's `k`-th request stores
   * `k - 1`; that count is not stated as a lemma of its own.
   */
  lemma VisitStoresNext(jar: Jar, v: int)
    requires "counter" in jar && jar["counter"] == Int32.ToString(v)
    requires Int32.InRange(v) && v < Int32.MaxI32
    ensures Int32.Parse(jar["counter"]) != Some(Int32.MaxI32)
    ensures VisitCookie(jar).1 == jar["counter" := Int32.ToString(v + 1)]
  {
    Handlers.CounterIncrements(v);
  }

  /** A first request, without a `counter` cookie, leaves the decimal of zero in the jar. */
  lemma FirstVisit(jar: Jar)
    requires "counter" !in jar
    ensures VisitCookie(jar).1 == jar["counter" := Int32.ToString(0)]
  {
  }

  /** After `logout`, the browser holds neither token, and every other cookie is as it was. */
  lemma LogoutSignsOut(jar: Jar)
    ensures var after := StoreAll(jar, Handlers.Logout().cookies);
            && "access_token" !in after && "refresh_token" !in after
            && forall n :: n != "access_token" && n != "refresh_token" ==>
                 (n in after <==> n in jar) && (n in jar ==> after[n] == jar[n])
  {
    var cookies := Handlers.Logout().cookies;
    var once := Store(jar, cookies[0]);
    assert StoreAll(jar, cookies) == StoreAll(once, cookies[1..]);
    assert StoreAll(once, cookies[1..]) == StoreAll(Store(once, cookies[1]), cookies[2..]);
    assert cookies[2..] == [];
  }
}
