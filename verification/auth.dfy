/** The login rate limiter and the authentication-session store. Both are
    process-wide maps in the application; here each is a value passed in and
    returned, and the clock reading `now` (milliseconds) is a parameter. Token
    generation and HMAC signing are parameters too: `token` is the fresh random
    token and `sign` is the keyed signature function. */
module Auth {
  import opened Wrappers
  import opened Strings

  const SESSION_DURATION: int := 24 * 60 * 60 * 1000
  const MAX_LOGIN_ATTEMPTS: nat := 5
  const LOCKOUT_DURATION: int := 15 * 60 * 1000

  /** Failures recorded for one client identifier. */
  datatype Attempts = Attempts(count: nat, resetAt: int)

  type AttemptTable = map<string, Attempts>

  /** The answer of `isRateLimited` together with the table it leaves behind. */
  datatype RateCheck = RateCheck(limited: bool, table: AttemptTable)

  /** `isRateLimited`: no entry is never limited; an entry past its reset time is
      deleted and not limited; otherwise five or more failures are limited. */
  function IsRateLimited(table: AttemptTable, id: string, now: int): (r: RateCheck)
    ensures id !in table ==> r == RateCheck(false, table)
    ensures id in table && now > table[id].resetAt ==> r == RateCheck(false, table - {id})
    ensures id in table && now <= table[id].resetAt ==>
              r.table == table && (r.limited <==> table[id].count >= MAX_LOGIN_ATTEMPTS)
  {
    if id !in table then RateCheck(false, table)
    else if now > table[id].resetAt then RateCheck(false, table - {id})
    else RateCheck(table[id].count >= MAX_LOGIN_ATTEMPTS, table)
  }

  /** `recordFailedAttempt`: a first failure opens a 15-minute window; later ones
      count up, and the window is pushed back only once the count reaches five.
      No other identifier's entry changes. */
  function RecordFailedAttempt(table: AttemptTable, id: string, now: int): (r: AttemptTable)
    ensures r.Keys == table.Keys + {id}
    ensures forall other :: other in table && other != id ==> r[other] == table[other]
    ensures id !in table ==> r[id] == Attempts(1, now + LOCKOUT_DURATION)
    ensures id in table ==> r[id].count == table[id].count + 1
    ensures id in table && r[id].count < MAX_LOGIN_ATTEMPTS ==> r[id].resetAt == table[id].resetAt
    ensures id in table && r[id].count >= MAX_LOGIN_ATTEMPTS ==> r[id].resetAt == now + LOCKOUT_DURATION
  {
    if id !in table then table[id := Attempts(1, now + LOCKOUT_DURATION)]
    else
      var count := table[id].count + 1;
      table[id := Attempts(count, if count >= MAX_LOGIN_ATTEMPTS then now + LOCKOUT_DURATION else table[id].resetAt)]
  }

  /** `clearLoginAttempts`: the identifier's entry goes, every other stays. */
  function ClearLoginAttempts(table: AttemptTable, id: string): (r: AttemptTable)
    ensures id !in r
    ensures forall other :: other != id ==> (other in r <==> other in table)
    ensures forall other :: other in r ==> r[other] == table[other]
  {
    table - {id}
  }

  /** Right after clearing, the identifier is not limited, at any time. */
  lemma ClearedNotLimited(table: AttemptTable, id: string, now: int)
    ensures !IsRateLimited(ClearLoginAttempts(table, id), id, now).limited
  {
  }

  /** What `validateCredentials` settles: the pair is accepted, refused, or the
      timing-safe username comparison throws. */
  datatype CredentialVerdict = Valid | Invalid | Throws

  /** Bytes one character takes in UTF-8, the encoding `Buffer.from` uses. */
  function Utf8Width(c: char): nat {
    if c as int < 0x80 then 1
    else if c as int < 0x800 then 2
    else if c as int < 0x10000 then 3
    else 4
  }

  function Utf8Length(s: string): nat {
    if |s| == 0 then 0 else Utf8Width(s[0]) + Utf8Length(s[1..])
  }

  lemma {:induction false} Utf8LengthAppend(a: string, b: string)
    ensures Utf8Length(a + b) == Utf8Length(a) + Utf8Length(b)
    decreases |a|
  {
    if |a| > 0 {
      assert (a + b)[1..] == a[1..] + b;
      Utf8LengthAppend(a[1..], b);
    } else {
      assert a + b == b;
    }
  }

  /** Every character takes at least one byte, and an ASCII one exactly one. */
  lemma {:induction false} Utf8LengthBounds(s: string)
    ensures Utf8Length(s) >= |s|
    ensures (forall i :: 0 <= i < |s| ==> s[i] as int < 0x80) ==> Utf8Length(s) == |s|
  {
    if |s| > 0 {
      Utf8LengthBounds(s[1..]);
      assert forall i :: 0 <= i < |s[1..]| ==> s[1..][i] == s[i + 1];
    }
  }

  /** `s.padEnd(n)`: spaces appended up to `n` characters; a longer string is
      kept as it is. */
  function PadEnd(s: string, n: nat): (r: string)
    ensures |s| >= n ==> r == s
    ensures |s| < n ==> |r| == n && r[..|s|] == s && forall i :: |s| <= i < n ==> r[i] == ' '
  {
    if |s| >= n then s else s + seq(n - |s|, _ => ' ')
  }

  /** `validateCredentials`: refuse when either variable is missing or empty;
      compare the usernames padded to 100 characters with `timingSafeEqual`,
      which throws when the two buffers differ in byte length; then accept an
      equal plain-text password, else the answer of `bcrypt.compare`, a throw of
      which is caught as a refusal (`bcryptMatches` gives that combined answer). */
  function ValidateCredentials(username: string, password: string, validUsername: Option<string>,
                               validPassword: Option<string>, bcryptMatches: (string, string) -> bool)
    : (r: CredentialVerdict)
    ensures !Truthy(validUsername) || !Truthy(validPassword) ==> r == Invalid
    ensures r == Throws <==>
              && Truthy(validUsername) && Truthy(validPassword)
              && Utf8Length(PadEnd(username, 100)) != Utf8Length(PadEnd(validUsername.value, 100))
    ensures r == Valid <==>
              && Truthy(validUsername) && Truthy(validPassword)
              && PadEnd(username, 100) == PadEnd(validUsername.value, 100)
              && (password == validPassword.value || bcryptMatches(password, validPassword.value))
  {
    if !Truthy(validUsername) || !Truthy(validPassword) then Invalid
    else
      var a := PadEnd(username, 100);
      var b := PadEnd(validUsername.value, 100);
      if Utf8Length(a) != Utf8Length(b) then Throws
      else if a != b then Invalid
      else if password == validPassword.value then Valid
      else if bcryptMatches(password, validPassword.value) then Valid
      else Invalid
  }

  /** With an ASCII username of at most 100 characters configured, any username
      longer than 100 characters makes the comparison throw. */
  lemma LongUsernameThrows(username: string, password: string, validUsername: string,
                           validPassword: string, bcryptMatches: (string, string) -> bool)
    requires validUsername != "" && validPassword != ""
    requires |validUsername| <= 100 && forall i :: 0 <= i < |validUsername| ==> validUsername[i] as int < 0x80
    requires |username| > 100
    ensures ValidateCredentials(username, password, Some(validUsername), Some(validPassword), bcryptMatches) == Throws
  {
    var b := PadEnd(validUsername, 100);
    assert forall i :: 0 <= i < |b| ==> b[i] as int < 0x80 by {
      forall i | 0 <= i < |b| ensures b[i] as int < 0x80 {
        if i < |validUsername| {
          assert b[i] == b[..|validUsername|][i];
        }
      }
    }
    Utf8LengthBounds(b);
    Utf8LengthBounds(username);
  }

  /** Trailing spaces do not tell usernames apart: below 100 characters, `u + " "`
      pads to the same buffer as `u`, so it logs in as `u`. */
  lemma TrailingSpaceAccepted(u: string, password: string, bcryptMatches: (string, string) -> bool)
    requires u != "" && password != "" && |u| < 100
    ensures PadEnd(u + " ", 100) == PadEnd(u, 100)
    ensures ValidateCredentials(u + " ", password, Some(u), Some(password), bcryptMatches) == Valid
  {
    var a := PadEnd(u + " ", 100);
    var b := PadEnd(u, 100);
    forall i | 0 <= i < 100 ensures a[i] == b[i] {
      if i < |u| {
        assert a[i] == a[..|u| + 1][i] == (u + " ")[i] == u[i];
        assert b[i] == b[..|u|][i] == u[i];
      } else if i == |u| {
        assert a[i] == a[..|u| + 1][i] == (u + " ")[i];
      }
    }
  }

  /** A stored authentication session. */
  datatype SessionData = SessionData(token: string, expiresAt: int, createdAt: int)

  type SessionStore = map<string, SessionData>

  /** `createSession`: without a signing secret it throws; otherwise it stores the
      fresh token for 24 hours and returns the cookie value `token.signature`. */
  function CreateSession(store: SessionStore, secretSet: bool, token: string, now: int, sign: string -> string)
    : (r: Result<(SessionStore, string), string>)
    ensures !secretSet <==> r.Err?
    ensures r.Ok? ==> r.value.0 == store[token := SessionData(token, now + SESSION_DURATION, now)]
    ensures r.Ok? ==> r.value.1 == token + "." + sign(token)
  {
    if !secretSet then Err("SESSION_SECRET must be set in environment variables")
    else Ok((store[token := SessionData(token, now + SESSION_DURATION, now)], token + "." + sign(token)))
  }

  /** The cookie's token and signature: the first two `.`-separated fields. */
  function TokenOf(cookie: string): string {
    Split(cookie, '.')[0]
  }

  function SignatureOf(cookie: string): Option<string> {
    var parts := Split(cookie, '.');
    if |parts| > 1 then Some(parts[1]) else None
  }

  /** The cookie is present, well formed and correctly signed. */
  predicate WellSigned(cookie: Option<string>, sign: string -> string) {
    && Truthy(cookie)
    && TokenOf(cookie.value) != ""
    && Truthy(SignatureOf(cookie.value))
    && SignatureOf(cookie.value).value == sign(TokenOf(cookie.value))
  }

  datatype AuthCheck = AuthCheck(authenticated: bool, store: SessionStore)

  /** `isAuthenticated`: a missing, malformed or wrongly signed cookie, an unknown
      token and an expired session all fail; an expired session is also removed. */
  function IsAuthenticated(cookie: Option<string>, store: SessionStore, now: int, sign: string -> string): (r: AuthCheck)
    ensures r.authenticated <==>
              WellSigned(cookie, sign) && TokenOf(cookie.value) in store && now <= store[TokenOf(cookie.value)].expiresAt
    ensures WellSigned(cookie, sign) && TokenOf(cookie.value) in store && now > store[TokenOf(cookie.value)].expiresAt ==>
              r.store == store - {TokenOf(cookie.value)}
    ensures !(WellSigned(cookie, sign) && TokenOf(cookie.value) in store && now > store[TokenOf(cookie.value)].expiresAt) ==>
              r.store == store
  {
    if !Truthy(cookie) then AuthCheck(false, store)
    else
      var token := TokenOf(cookie.value);
      var signature := SignatureOf(cookie.value);
      if token == "" || !Truthy(signature) then AuthCheck(false, store)
      else if signature.value != sign(token) then AuthCheck(false, store)
      else if token !in store then AuthCheck(false, store)
      else if now > store[token].expiresAt then AuthCheck(false, store - {token})
      else AuthCheck(true, store)
  }

  /** `destroySession`: the cookie's token (signed or not) leaves the store. */
  function DestroySession(cookie: Option<string>, store: SessionStore): (r: SessionStore)
    ensures Truthy(cookie) ==> r == store - {TokenOf(cookie.value)}
    ensures !Truthy(cookie) ==> r == store
  {
    if Truthy(cookie) then store - {TokenOf(cookie.value)} else store
  }

  /** After logging out, the same cookie no longer authenticates. */
  lemma DestroyedCookieRejected(cookie: Option<string>, store: SessionStore, now: int, sign: string -> string)
    ensures !IsAuthenticated(cookie, DestroySession(cookie, store), now, sign).authenticated
  {
  }

  /** Logging out leaves every other session's verdict as it was. */
  lemma DestroyKeepsOtherSessions(cookie: Option<string>, other: Option<string>, store: SessionStore, now: int,
                                  sign: string -> string)
    requires Truthy(other) && (Truthy(cookie) ==> TokenOf(other.value) != TokenOf(cookie.value))
    ensures IsAuthenticated(other, DestroySession(cookie, store), now, sign).authenticated
         == IsAuthenticated(other, store, now, sign).authenticated
  {
  }

  /** `cleanupExpiredSessions`: exactly the sessions with `now > expiresAt` go. */
  function CleanupExpiredSessions(store: SessionStore, now: int): (r: SessionStore)
    ensures forall t :: t in r <==> t in store && now <= store[t].expiresAt
    ensures forall t :: t in r ==> r[t] == store[t]
  {
    map t | t in store && now <= store[t].expiresAt :: store[t]
  }

  /** Sweeping expired sessions never changes whether a cookie authenticates. */
  lemma CleanupKeepsAuthentication(cookie: Option<string>, store: SessionStore, now: int, sign: string -> string)
    ensures IsAuthenticated(cookie, CleanupExpiredSessions(store, now), now, sign).authenticated
         == IsAuthenticated(cookie, store, now, sign).authenticated
  {
  }

  /** Sweeping twice at the same time removes nothing more. */
  lemma CleanupIdempotent(store: SessionStore, now: int)
    ensures CleanupExpiredSessions(CleanupExpiredSessions(store, now), now) == CleanupExpiredSessions(store, now)
  {
  }

  /** Tokens are base64url, signatures too: neither contains a `.`. */
  predicate Base64UrlSafe(s: string) {
    s != "" && '.' !in s
  }

  /** The cookie issued at login authenticates for the next 24 hours (inclusive)
      and no longer afterwards. */
  lemma {:induction false} IssuedCookieAuthenticates(
    store: SessionStore, token: string, now: int, later: int, sign: string -> string)
    requires Base64UrlSafe(token) && Base64UrlSafe(sign(token))
    requires now <= later
    ensures CreateSession(store, true, token, now, sign).Ok?
    ensures var (s, cookie) := CreateSession(store, true, token, now, sign).value;
            IsAuthenticated(Some(cookie), s, later, sign).authenticated <==> later <= now + SESSION_DURATION
  {
    var sig := sign(token);
    var cookie := token + "." + sig;
    SplitAfterField(token, '.', sig);
    SplitNoSeparator(sig, '.');
    assert cookie == token + ['.'] + sig;
    assert Split(cookie, '.') == [token, sig];
  }

  /** Fields after the signature are ignored: appending `.anything` to a valid
      cookie still authenticates. */
  lemma {:induction false} TrailingFieldsIgnored(token: string, junk: string, store: SessionStore, now: int, sign: string -> string)
    requires Base64UrlSafe(token) && Base64UrlSafe(sign(token))
    requires token in store && now <= store[token].expiresAt
    ensures IsAuthenticated(Some(token + "." + sign(token) + "." + junk), store, now, sign).authenticated
  {
    var sig := sign(token);
    SplitAfterField(token, '.', sig + "." + junk);
    SplitAfterField(sig, '.', junk);
    assert token + "." + sig + "." + junk == token + ['.'] + (sig + ['.'] + junk);
  }
}
