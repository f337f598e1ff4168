/** The route handlers of the authentication server (backend/server.js):
    /api/register, /api/login, /api/verify and /api/logout over the table
    of user accounts.

    The table maps the stored email to the account's id and password hash.
    bcrypt is a pair of functions given to the server, `hash` and `matches`;
    a database error other than the schema's `required` check is not
    modelled. Each handler runs to completion before the next request. */
module Accounts {
  import opened JsText
  import opened Session

  // ---------------------------------------------------------------- emails

  /** `email.toLowerCase().trim()`, which is also what the schema's
      `lowercase` and `trim` setters do to a stored email. */
  function Normalize(email: string): (key: string)
    ensures Trimmed(key) && NoUpper(key)
    ensures |key| <= |email|
  {
    var lower := Lower(email);
    LowerIsIdempotent(email);
    var key := Trim(lower);
    SliceKeepsNoUpper(lower, key);
    key
  }

  /** A slice of a string without upper-case letters has none either. */
  lemma SliceKeepsNoUpper(s: string, r: string)
    requires NoUpper(s) && exists start :: SliceBetweenSpaces(s, r, start)
    ensures NoUpper(r) && |r| <= |s|
  {
    var start :| SliceBetweenSpaces(s, r, start);
    forall i | 0 <= i < |r| ensures !IsUpperAscii(r[i]) {
      assert r[i] == s[start + i];
    }
  }

  /** Normalising twice is normalising once: the setters leave a key that
      register has already normalised as it is. */
  lemma NormalizeIdempotent(email: string)
    ensures Normalize(Normalize(email)) == Normalize(email)
  {
    var key := Normalize(email);
    LowerIsIdempotent(key);
    TrimOfTrimmed(key);
  }

  /** An email whose lower-case form has no white space at either end
      normalises to that lower-case form, the key login looks up. */
  lemma NormalizeOfTrimmed(email: string)
    requires Trimmed(Lower(email))
    ensures Normalize(email) == Lower(email)
  {
    TrimOfTrimmed(Lower(email));
  }

  // ---------------------------------------------------------------- state

  /** One document of the User collection: its id and the bcrypt hash of
      its password. */
  datatype Account = Account(id: nat, passwordHash: string)

  /** The User collection, keyed by the stored email, and the id the next
      created document receives. */
  datatype Table = Table(users: map<string, Account>, nextId: nat)

  /** What the schema and register together guarantee: every stored email
      is non-empty and already normalised (so two different keys never
      stand for the same email, see StoredEmailIsFixpoint), and ids are
      distinct and below nextId. */
  ghost predicate TableInvariant(t: Table) {
    && (forall k | k in t.users :: StoredEmail(k))
    && (forall k | k in t.users :: t.users[k].id < t.nextId)
    && (forall k1, k2 | k1 in t.users && k2 in t.users && k1 != k2 :: t.users[k1].id != t.users[k2].id)
  }

  /** A value the schema accepts as an email: non-empty, already lower-case
      and without white space at either end. */
  predicate StoredEmail(k: string) {
    k != "" && Trimmed(k) && NoUpper(k)
  }

  /** Stored emails are exactly the non-empty fixpoints of the setters. */
  lemma StoredEmailIsFixpoint(k: string)
    ensures StoredEmail(k) <==> k != "" && Normalize(k) == k
  {
    if StoredEmail(k) {
      LowerIsIdempotent(k);
      TrimOfTrimmed(k);
    }
  }

  datatype Body =
    | ErrorBody(error: string)
    | StatusBody(status: string)
    | UserBody(status: string, userId: nat)

  /** An HTTP response: status code, JSON body, Set-Cookie headers. */
  datatype Response = Response(code: nat, body: Body, cookies: seq<CookieDirective>)

  /** jwt.sign's secret: the JWT_SECRET environment variable, or
      "SUPER_SECRET_KEY" when it is unset or empty. */
  function SecretKey(env: Option<string>): (secret: string)
    ensures secret != ""
    ensures Truthy(env) ==> secret == env.value
  {
    Or(env, "SUPER_SECRET_KEY")
  }

  // ---------------------------------------------------------------- register

  /** POST /api/register with body fields `email` and `password`. 400 when
      either is missing or empty; 409 when the normalised email is taken;
      500 when the normalised email is empty, which the schema's `required`
      rejects; otherwise 201 and exactly one new account, under the
      normalised email, holding the hash of the password. */
  function RegisterResult(t: Table, hash: string -> string, email: Option<string>,
                          password: Option<string>): (r: (Response, Table))
    ensures r.0.cookies == []
    ensures r.0.code == 400 <==> !Truthy(email) || !Truthy(password)
    ensures r.0.code == 409 <==> Truthy(email) && Truthy(password) && Normalize(email.value) in t.users
    ensures r.0.code == 201 <==> Truthy(email) && Truthy(password)
                                 && Normalize(email.value) !in t.users && Normalize(email.value) != ""
    ensures r.0.code == 500 <==> Truthy(email) && Truthy(password)
                                 && Normalize(email.value) !in t.users && Normalize(email.value) == ""
    ensures r.0.code != 201 ==> r.1 == t
    ensures r.0.code == 201 ==>
              r.1 == Table(t.users[Normalize(email.value) := Account(t.nextId, hash(password.value))], t.nextId + 1)
  {
    if !Truthy(email) || !Truthy(password) then
      (Response(400, ErrorBody("Email and password required"), []), t)
    else
      var key := Normalize(email.value);
      if key in t.users then
        (Response(409, ErrorBody("Email already registered."), []), t)
      else
        // User.create runs the schema setters on the key once more.
        var stored := Normalize(key);
        NormalizeIdempotent(email.value);
        if stored == "" then
          (Response(500, ErrorBody("Server error"), []), t)
        else
          (Response(201, StatusBody("ok"), []),
           Table(t.users[stored := Account(t.nextId, hash(password.value))], t.nextId + 1))
  }

  /** Register keeps the table normalised, its ids distinct and below nextId. */
  lemma RegisterKeepsInvariant(t: Table, hash: string -> string, email: Option<string>,
                               password: Option<string>)
    requires TableInvariant(t)
    ensures TableInvariant(RegisterResult(t, hash, email, password).1)
  {
    var r := RegisterResult(t, hash, email, password);
    if r.0.code == 201 {
      var key := Normalize(email.value);
      NormalizeIdempotent(email.value);
      AddAccountKeepsInvariant(t, key, Account(t.nextId, hash(password.value)));
    }
  }

  /** Adding an account under a new normalised key with the next id keeps
      the invariant. */
  lemma AddAccountKeepsInvariant(t: Table, key: string, account: Account)
    requires TableInvariant(t)
    requires StoredEmail(key) && key !in t.users && account.id == t.nextId
    ensures TableInvariant(Table(t.users[key := account], t.nextId + 1))
  {
    var users := t.users[key := account];
    forall k | k in users ensures StoredEmail(k) && users[k].id < t.nextId + 1 {
      if k != key {
        assert users[k] == t.users[k];
      }
    }
    forall k1, k2 | k1 in users && k2 in users && k1 != k2 ensures users[k1].id != users[k2].id {
      if k1 != key && k2 != key {
        assert users[k1] == t.users[k1] && users[k2] == t.users[k2];
      }
    }
  }

  /** Once an email is registered, registering any email with the same
      normalisation (other case, surrounding white space) is refused with
      409 and leaves the table as it is: one account per email. */
  lemma DuplicateRegisterRejected(t: Table, hash: string -> string, email: string, password: string,
                                  again: string, otherPassword: string)
    requires Normalize(again) == Normalize(email) && again != "" && otherPassword != ""
    requires RegisterResult(t, hash, Some(email), Some(password)).0.code == 201
    ensures var t' := RegisterResult(t, hash, Some(email), Some(password)).1;
            RegisterResult(t', hash, Some(again), Some(otherPassword)) == (Response(409, ErrorBody("Email already registered."), []), t')
  {
  }

  // ---------------------------------------------------------------- login

  /** POST /api/login. The email is looked up lower-cased but not trimmed.
      200 with a one-hour token cookie for the account's id exactly when the
      account exists and the password matches its hash; an unknown email and
      a wrong password get the same 401 and no cookie; a missing email, or
      a missing password for an existing account, throws and gives 500. */
  function LoginResult(t: Table, secret: string, matches: (string, string) -> bool,
                       email: Option<string>, password: Option<string>, now: int): (r: Response)
    ensures r.code == 200 <==> (email.Some? && Lower(email.value) in t.users && password.Some?
                               && matches(password.value, t.users[Lower(email.value)].passwordHash))
    ensures r.code == 200 ==>
              r.body == StatusBody("ok")
              && r.cookies == [SetCookie(TokenCookie, Jwt(Sign(secret, t.users[Lower(email.value)].id, now)),
                                         LoginCookieOptions)]
    ensures r.code == 500 <==> email.None? || (Lower(email.value) in t.users && password.None?)
    ensures r.code != 200 && r.code != 500 ==> r == Response(401, ErrorBody("Invalid credentials"), [])
  {
    if email.None? then
      Response(500, ErrorBody("Internal error"), [])
    else
      var key := Lower(email.value);
      if key !in t.users then
        Response(401, ErrorBody("Invalid credentials"), [])
      else if password.None? then
        Response(500, ErrorBody("Internal error"), [])
      else if matches(password.value, t.users[key].passwordHash) then
        var token := Sign(secret, t.users[key].id, now);
        Response(200, StatusBody("ok"), [SetCookie(TokenCookie, Jwt(token), LoginCookieOptions)])
      else
        Response(401, ErrorBody("Invalid credentials"), [])
  }

  /** bcrypt's compare accepts a password against its own hash. */
  ghost predicate HashAgreement(hash: string -> string, matches: (string, string) -> bool) {
    forall pw :: matches(pw, hash(pw))
  }

  /** An account just registered can log in with the same password and an
      email whose lower-case form has no edge white space; the token names
      the new account's id. */
  lemma RegisterThenLogin(t: Table, hash: string -> string, matches: (string, string) -> bool,
                          secret: string, email: string, password: string, now: int)
    requires HashAgreement(hash, matches)
    requires Trimmed(Lower(email))
    requires RegisterResult(t, hash, Some(email), Some(password)).0.code == 201
    ensures var t' := RegisterResult(t, hash, Some(email), Some(password)).1;
            var r := LoginResult(t', secret, matches, Some(email), Some(password), now);
            r.code == 200 && r.cookies[0].value == Jwt(Sign(secret, t.nextId, now))
  {
    NormalizeOfTrimmed(email);
  }

  /** Login does not trim: an email whose lower-case form starts or ends
      with white space never matches a stored email, so the answer is the
      generic 401 whatever the password. */
  lemma LoginUntrimmedFails(t: Table, secret: string, matches: (string, string) -> bool,
                            email: string, password: Option<string>, now: int)
    requires TableInvariant(t)
    requires !Trimmed(Lower(email))
    ensures LoginResult(t, secret, matches, Some(email), password, now)
            == Response(401, ErrorBody("Invalid credentials"), [])
  {
    if Lower(email) in t.users {
      assert false;
    }
  }

  /** The asymmetry between the two routes: an email registered with
      surrounding white space is stored trimmed, and logging in with the
      very same text fails. */
  lemma RegisteredWithSpacesCannotLogIn(t: Table, hash: string -> string, matches: (string, string) -> bool,
                                        secret: string, email: string, password: string, now: int)
    requires TableInvariant(t)
    requires !Trimmed(Lower(email))
    requires RegisterResult(t, hash, Some(email), Some(password)).0.code == 201
    ensures var t' := RegisterResult(t, hash, Some(email), Some(password)).1;
            LoginResult(t', secret, matches, Some(email), Some(password), now).code == 401
  {
    var t' := RegisterResult(t, hash, Some(email), Some(password)).1;
    RegisterKeepsInvariant(t, hash, Some(email), Some(password));
    LoginUntrimmedFails(t', secret, matches, email, Some(password), now);
  }

  // ---------------------------------------------------------------- verify

  /** GET /api/verify with the `token` cookie, if any. 401 "Unauthorized"
      without one; 403 "Invalid token" when it is not a token signed with
      the secret or has expired; otherwise 200 with the token's id. */
  function VerifyResult(secret: string, cookie: Option<CookieValue>, now: int): (r: Response)
    ensures r.cookies == []
    ensures r.code == 401 <==> !Present(cookie)
    ensures r.code == 200 <==> cookie.Some? && cookie.value.Jwt? && ValidToken(secret, cookie.value.token, now)
    ensures r.code == 200 ==> r.body == UserBody("ok", cookie.value.token.claims.id)
    ensures r.code != 200 && r.code != 401 ==> r == Response(403, ErrorBody("Invalid token"), [])
  {
    if !Present(cookie) then
      Response(401, ErrorBody("Unauthorized"), [])
    else
      match cookie.value
      case Raw(_) => Response(403, ErrorBody("Invalid token"), [])
      case Jwt(token) =>
        if ValidToken(secret, token, now) then Response(200, UserBody("ok", token.claims.id), [])
        else Response(403, ErrorBody("Invalid token"), [])
  }

  /** After a successful login, the browser's cookie proves the session for
      the next hour (verify answers 200 with the account's id); from then on
      the browser no longer sends it and verify answers 401. */
  lemma LoginThenVerify(t: Table, secret: string, matches: (string, string) -> bool, jar: Jar,
                        email: string, password: string, issued: int, now: int)
    requires LoginResult(t, secret, matches, Some(email), Some(password), issued).code == 200
    requires issued <= now
    ensures var login := LoginResult(t, secret, matches, Some(email), Some(password), issued);
            var r := VerifyResult(secret, Sent(ReceiveAll(jar, login.cookies, issued), now), now);
            if now < issued + TokenLifetime then r == Response(200, UserBody("ok", t.users[Lower(email)].id), [])
            else r.code == 401
  {
    var login := LoginResult(t, secret, matches, Some(email), Some(password), issued);
    var token := Sign(secret, t.users[Lower(email)].id, issued);
    LoginCookieLifetime(jar, Jwt(token), issued, now);
  }

  /** Register, then log in with the same credentials, then verify within
      the hour: verify names the id the new account was created with. */
  lemma RegisterLoginVerify(t: Table, hash: string -> string, matches: (string, string) -> bool,
                            secret: string, jar: Jar, email: string, password: string,
                            issued: int, now: int)
    requires HashAgreement(hash, matches)
    requires Trimmed(Lower(email))
    requires RegisterResult(t, hash, Some(email), Some(password)).0.code == 201
    requires issued <= now < issued + TokenLifetime
    ensures var t' := RegisterResult(t, hash, Some(email), Some(password)).1;
            var login := LoginResult(t', secret, matches, Some(email), Some(password), issued);
            VerifyResult(secret, Sent(ReceiveAll(jar, login.cookies, issued), now), now)
            == Response(200, UserBody("ok", t.nextId), [])
  {
    var t' := RegisterResult(t, hash, Some(email), Some(password)).1;
    RegisterThenLogin(t, hash, matches, secret, email, password, issued);
    NormalizeOfTrimmed(email);
    LoginThenVerify(t', secret, matches, jar, email, password, issued, now);
  }

  // ---------------------------------------------------------------- logout

  /** POST /api/logout: always 200, and a header that clears the `token`
      cookie with the name, path and flags the login cookie was set with. */
  function LogoutResult(): (r: Response)
    ensures r.code == 200 && r.body == StatusBody("logged out")
    ensures |r.cookies| == 1 && r.cookies[0].ClearCookie? && r.cookies[0].name == TokenCookie
    ensures var o := r.cookies[0].options;
            && o.path == LoginCookieOptions.path && o.httpOnly == LoginCookieOptions.httpOnly
            && o.secure == LoginCookieOptions.secure && o.sameSite == LoginCookieOptions.sameSite
  {
    Response(200, StatusBody("logged out"), [ClearCookie(TokenCookie, LogoutCookieOptions)])
  }

  /** After logout the browser sends no token and verify answers 401. The
      server keeps no record of the logout, so a copy of the token made
      before it still verifies until it expires. */
  lemma LogoutThenVerify(secret: string, jar: Jar, token: Token, now: int, later: int)
    requires ValidToken(secret, token, later)
    ensures VerifyResult(secret, Sent(ReceiveAll(jar, LogoutResult().cookies, now), later), later).code == 401
    ensures VerifyResult(secret, Some(Jwt(token)), later).code == 200
  {
    LogoutDropsLoginCookie(jar, now, later);
  }

  // ---------------------------------------------------------------- server

  /** The Express application: its secret, bcrypt, and the User collection. */
  class Server {
    const secret: string
    const hash: string -> string
    const matches: (string, string) -> bool
    var users: map<string, Account>
    var nextId: nat

    function State(): Table
      reads this
    {
      Table(users, nextId)
    }

    ghost predicate Valid()
      reads this
    {
      TableInvariant(State())
    }

    /** Start-up with an empty collection; `env` is JWT_SECRET. */
    constructor (env: Option<string>, hash: string -> string, matches: (string, string) -> bool)
      ensures Valid() && users == map[] && nextId == 0
      ensures secret == SecretKey(env) && this.hash == hash && this.matches == matches
    {
      secret := SecretKey(env);
      this.hash := hash;
      this.matches := matches;
      users := map[];
      nextId := 0;
    }

    method Register(email: Option<string>, password: Option<string>) returns (res: Response)
      requires Valid()
      modifies this
      ensures Valid()
      ensures (res, State()) == RegisterResult(old(State()), hash, email, password)
    {
      if !Truthy(email) || !Truthy(password) {
        return Response(400, ErrorBody("Email and password required"), []);
      }
      var existing := Normalize(email.value);
      if existing in users {
        return Response(409, ErrorBody("Email already registered."), []);
      }
      ghost var before := State();
      ghost var expected := RegisterResult(before, hash, email, password);
      var hashed := hash(password.value);
      // User.create: the schema's setters normalise the email once more,
      // and `required` rejects an empty one.
      var stored := Normalize(existing);
      NormalizeIdempotent(email.value);
      assert stored == existing;
      if stored == "" {
        assert expected == (Response(500, ErrorBody("Server error"), []), before);
        return Response(500, ErrorBody("Server error"), []);
      }
      var account := Account(nextId, hashed);
      AddAccountKeepsInvariant(before, stored, account);
      users := users[stored := account];
      nextId := nextId + 1;
      res := Response(201, StatusBody("ok"), []);
      assert State() == Table(before.users[stored := account], before.nextId + 1) == expected.1;
    }

    method Login(email: Option<string>, password: Option<string>, now: int) returns (res: Response)
      ensures res == LoginResult(State(), secret, matches, email, password, now)
    {
      if email.None? {
        return Response(500, ErrorBody("Internal error"), []);
      }
      var key := Lower(email.value);
      if key !in users {
        return Response(401, ErrorBody("Invalid credentials"), []);
      }
      var user := users[key];
      if password.None? {
        return Response(500, ErrorBody("Internal error"), []);
      }
      if matches(password.value, user.passwordHash) {
        var token := Sign(secret, user.id, now);
        return Response(200, StatusBody("ok"), [SetCookie(TokenCookie, Jwt(token), LoginCookieOptions)]);
      }
      res := Response(401, ErrorBody("Invalid credentials"), []);
    }

    method Verify(cookie: Option<CookieValue>, now: int) returns (res: Response)
      ensures res == VerifyResult(secret, cookie, now)
    {
      if !Present(cookie) {
        return Response(401, ErrorBody("Unauthorized"), []);
      }
      if cookie.value.Jwt? && ValidToken(secret, cookie.value.token, now) {
        return Response(200, UserBody("ok", cookie.value.token.claims.id), []);
      }
      res := Response(403, ErrorBody("Invalid token"), []);
    }

    method Logout() returns (res: Response)
      ensures res == LogoutResult()
    {
      res := Response(200, StatusBody("logged out"), [ClearCookie(TokenCookie, LogoutCookieOptions)]);
    }
  }
}
