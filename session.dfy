/** Sessions of the authentication server (backend/server.js): the JSON web
    token issued at login, the cookie that carries it, and the browser's
    cookie store that sends it back.

    The token is symbolic. Its signature is the term Hs256(key, claims),
    which stands for an HMAC-SHA256 that no one can produce without the
    key; any other signature, and any text that is not a token at all,
    fails verification. Times are whole seconds since the epoch. */
module Session {
  import opened JsText

  // ---------------------------------------------------------------- tokens

  /** The payload of a token: `{ id }` plus the `iat` and `exp` claims that
      jwt.sign adds. */
  datatype Claims = Claims(id: nat, iat: int, exp: int)

  datatype Signature = Hs256(key: string, over: Claims) | Forged(raw: string)

  datatype Token = Token(claims: Claims, signature: Signature)

  /** `expiresIn: '1h'`, in seconds. */
  const TokenLifetime: int := 3600

  /** jwt.sign({ id }, key, { expiresIn: '1h' }) at time `now`. */
  function Sign(key: string, id: nat, now: int): (t: Token)
    ensures t.claims.id == id && t.claims.iat == now
    ensures t.claims.exp == now + TokenLifetime
  {
    var claims := Claims(id, now, now + TokenLifetime);
    Token(claims, Hs256(key, claims))
  }

  /** jwt.verify succeeds: the signature is the key's signature over these
      very claims, and the token has not expired (it is rejected from the
      second `exp` on). */
  predicate ValidToken(key: string, t: Token, now: int)
    ensures ValidToken(key, t, now) ==> t.signature.Hs256? && t.signature.key == key && t.signature.over == t.claims
    ensures ValidToken(key, t, now) ==> now < t.claims.exp
    ensures t.signature.Forged? ==> !ValidToken(key, t, now)
  {
    t.signature == Hs256(key, t.claims) && now < t.claims.exp
  }

  /** A token verifies under the key that signed it exactly during the hour
      after it was issued, and under no other key. */
  lemma SignedTokenLifetime(key: string, other: string, id: nat, issued: int, now: int)
    requires issued <= now
    ensures ValidToken(key, Sign(key, id, issued), now) <==> now < issued + TokenLifetime
    ensures other != key ==> !ValidToken(other, Sign(key, id, issued), now)
  {
  }

  /** Changing any claim of a signed token invalidates it: the signature
      covers the claims. */
  lemma TamperedClaimsFail(key: string, t: Token, c: Claims, now: int)
    requires ValidToken(key, t, now) && c != t.claims
    ensures !ValidToken(key, Token(c, t.signature), now)
  {
  }

  // ---------------------------------------------------------------- cookies

  /** The value of the `token` cookie as the server reads it through
      cookie-parser: a token, or some other text. */
  datatype CookieValue = Jwt(token: Token) | Raw(text: string)

  /** `!token` in the handler: only an absent cookie or the empty text is falsy. */
  predicate Present(v: Option<CookieValue>) {
    v.Some? && v.value != Raw("")
  }

  /** The options passed to res.cookie or res.clearCookie; `maxAge` is in
      milliseconds. */
  datatype CookieOptions = CookieOptions(
    httpOnly: bool,
    secure: bool,
    sameSite: string,
    path: string,
    maxAge: Option<nat>)

  /** A Set-Cookie header of a response. */
  datatype CookieDirective =
    | SetCookie(name: string, value: CookieValue, options: CookieOptions)
    | ClearCookie(name: string, options: CookieOptions)

  /** The name of the session cookie. */
  const TokenCookie: string := "token"

  /** The options of the login cookie: script-invisible, HTTPS only, sent on
      cross-site requests, for every path, for one hour. */
  const LoginCookieOptions: CookieOptions :=
    CookieOptions(true, true, "none", "/", Some(3600000))

  /** The options of the logout clearCookie: the same flags and path, no
      lifetime. */
  const LogoutCookieOptions: CookieOptions :=
    CookieOptions(true, true, "none", "/", None)

  // ---------------------------------------------------------------- browser

  /** A cookie as the browser stores it; `expiresAt` is None for a cookie
      that lasts for the browsing session. */
  datatype StoredCookie = StoredCookie(value: CookieValue, expiresAt: Option<int>)

  /** The browser's cookies for the server's host. A cookie is identified by
      its name and path (section 5.3 of RFC 6265): a new one with the same
      pair replaces the old one. */
  type Jar = map<(string, string), StoredCookie>

  /** The browser handles one Set-Cookie header at time `now`. Express turns
      maxAge into Max-Age in whole seconds, and clearCookie into an expiry
      in the past, which removes the cookie with that name and path. */
  function Receive(jar: Jar, d: CookieDirective, now: int): (after: Jar)
    ensures d.ClearCookie? ==> (d.name, d.options.path) !in after
    ensures d.SetCookie? ==> (d.name, d.options.path) in after
                             && after[(d.name, d.options.path)].value == d.value
    ensures forall k :: k in jar && k != (d.name, d.options.path) ==> k in after && after[k] == jar[k]
    ensures forall k :: k in after && k != (d.name, d.options.path) ==> k in jar
  {
    match d
    case ClearCookie(name, options) => jar - {(name, options.path)}
    case SetCookie(name, value, options) =>
      var expiresAt := if options.maxAge.Some? then Some(now + options.maxAge.value / 1000) else None;
      jar[(name, options.path) := StoredCookie(value, expiresAt)]
  }

  /** The browser handles the Set-Cookie headers of one response in order. */
  function ReceiveAll(jar: Jar, ds: seq<CookieDirective>, now: int): Jar
    decreases |ds|
  {
    if ds == [] then jar else ReceiveAll(Receive(jar, ds[0], now), ds[1..], now)
  }

  /** The `token` cookie the browser sends with a request at time `now`: the
      one stored for path "/", if it has not expired. A `token` cookie stored
      under a longer path such as "/api" is never consulted: the server only
      ever sets the cookie for "/". */
  function Sent(jar: Jar, now: int): (v: Option<CookieValue>)
    ensures v.Some? ==> (TokenCookie, "/") in jar && v.value == jar[(TokenCookie, "/")].value
  {
    var key := (TokenCookie, "/");
    if key in jar && (jar[key].expiresAt.None? || now < jar[key].expiresAt.value)
    then Some(jar[key].value)
    else None
  }

  /** The login cookie, once stored, is sent back for exactly one hour. */
  lemma {:induction false} LoginCookieLifetime(jar: Jar, v: CookieValue, issued: int, now: int)
    requires issued <= now
    ensures var after := ReceiveAll(jar, [SetCookie(TokenCookie, v, LoginCookieOptions)], issued);
            Sent(after, now) == (if now < issued + TokenLifetime then Some(v) else None)
  {
    var d := SetCookie(TokenCookie, v, LoginCookieOptions);
    assert ReceiveAll(jar, [d], issued) == ReceiveAll(Receive(jar, d, issued), [], issued);
  }

  /** The logout header names the cookie the login header created: same
      name and path, so the browser drops it, and no `token` cookie for
      path "/" is sent afterwards, whatever the browser held there before. */
  lemma {:induction false} LogoutDropsLoginCookie(jar: Jar, now: int, later: int)
    ensures var after := ReceiveAll(jar, [ClearCookie(TokenCookie, LogoutCookieOptions)], now);
            (TokenCookie, LoginCookieOptions.path) !in after && Sent(after, later).None?
  {
    var d := ClearCookie(TokenCookie, LogoutCookieOptions);
    assert ReceiveAll(jar, [d], now) == ReceiveAll(Receive(jar, d, now), [], now);
  }
}
