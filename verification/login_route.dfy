/** `POST /api/auth/login`: required fields, client identifier, rate limit,
    credential check, then clearing the failures and creating a session.
    `credentials` stands for `validateCredentials` (environment lookup, timing-safe
    comparison and bcrypt), which this model does not open. */
module LoginRoute {
  import opened Wrappers
  import opened Strings
  import opened Auth

  /** The JSON body fields and the two proxy headers the route reads. */
  datatype LoginRequest = LoginRequest(
    username: Option<string>,
    password: Option<string>,
    forwardedFor: Option<string>,
    realIp: Option<string>)

  datatype AuthState = AuthState(attempts: AttemptTable, sessions: SessionStore)

  /** The HTTP status, and on success the session cookie value that is set. */
  datatype LoginResponse = LoginResponse(status: int, cookie: Option<string>)

  /** The first comma-separated element of `x-forwarded-for`, else `x-real-ip`,
      else `unknown` (an empty header counts as missing), trimmed. */
  function ClientIdentifier(req: LoginRequest): (id: string)
    ensures Truthy(req.forwardedFor) ==> id == Trim(Split(req.forwardedFor.value, ',')[0])
    ensures !Truthy(req.forwardedFor) && Truthy(req.realIp) ==> id == Trim(Split(req.realIp.value, ',')[0])
    ensures !Truthy(req.forwardedFor) && !Truthy(req.realIp) ==> id == "unknown"
  {
    var ip := if Truthy(req.forwardedFor) then req.forwardedFor.value
              else if Truthy(req.realIp) then req.realIp.value
              else "unknown";
    BareIdentifier("unknown");
    Trim(Split(ip, ',')[0])
  }

  /** A word without commas or surrounding whitespace identifies itself. */
  lemma BareIdentifier(u: string)
    requires ',' !in u && |u| > 0 && !IsWhitespace(u[0]) && !IsWhitespace(u[|u| - 1])
    ensures Trim(Split(u, ',')[0]) == u
  {
    SplitNoSeparator(u, ',');
    TrimOfCore(u);
  }

  /** Behind a proxy chain, the identifier is the first hop with its spaces removed. */
  lemma FirstForwardedHop(hop: string, rest: string)
    requires ',' !in hop
    ensures ClientIdentifier(LoginRequest(Some("a"), Some("b"), Some(hop + "," + rest), None)) == Trim(hop)
  {
    SplitAfterField(hop, ',', rest);
    assert hop + "," + rest == hop + [','] + rest;
  }

  /** The route's `POST` handler. */
  function Login(
    req: LoginRequest, state: AuthState, now: int, freshToken: string, secretSet: bool,
    sign: string -> string, credentials: (string, string) -> CredentialVerdict): (r: (LoginResponse, AuthState))
    ensures r.0.status in {200, 400, 401, 429, 500}
    ensures r.0.status == 200 <==> r.0.cookie.Some?
  {
    if !Truthy(req.username) || !Truthy(req.password) then (LoginResponse(400, None), state)
    else
      var id := ClientIdentifier(req);
      var check := IsRateLimited(state.attempts, id, now);
      if check.limited then (LoginResponse(429, None), state.(attempts := check.table))
      else match credentials(req.username.value, req.password.value)
        case Throws => (LoginResponse(500, None), state.(attempts := check.table))
        case Invalid => (LoginResponse(401, None), state.(attempts := RecordFailedAttempt(check.table, id, now)))
        case Valid =>
          var cleared := ClearLoginAttempts(check.table, id);
          match CreateSession(state.sessions, secretSet, freshToken, now, sign)
          case Err(_) => (LoginResponse(500, None), AuthState(cleared, state.sessions))
          case Ok((sessions, cookie)) => (LoginResponse(200, Some(cookie)), AuthState(cleared, sessions))
  }

  /** A request without username or password is answered 400 before the limiter
      is consulted: no state changes at all. */
  lemma MissingFieldsRejectedFirst(
    req: LoginRequest, state: AuthState, now: int, token: string, secretSet: bool,
    sign: string -> string, credentials: (string, string) -> CredentialVerdict)
    requires !Truthy(req.username) || !Truthy(req.password)
    ensures Login(req, state, now, token, secretSet, sign, credentials) == (LoginResponse(400, None), state)
  {
  }

  /** A limited identifier gets 429 whatever the credentials are: the answer and
      the resulting state do not depend on the credential check. */
  lemma LimitedIgnoresCredentials(
    req: LoginRequest, state: AuthState, now: int, token: string, secretSet: bool,
    sign: string -> string, c1: (string, string) -> CredentialVerdict, c2: (string, string) -> CredentialVerdict)
    requires Truthy(req.username) && Truthy(req.password)
    requires IsRateLimited(state.attempts, ClientIdentifier(req), now).limited
    ensures Login(req, state, now, token, secretSet, sign, c1).0.status == 429
    ensures Login(req, state, now, token, secretSet, sign, c1) == Login(req, state, now, token, secretSet, sign, c2)
  {
  }

  /** Wrong credentials: 401, exactly one failure recorded, sessions untouched. */
  lemma WrongCredentialsRecordOneFailure(
    req: LoginRequest, state: AuthState, now: int, token: string, secretSet: bool,
    sign: string -> string, credentials: (string, string) -> CredentialVerdict)
    requires Truthy(req.username) && Truthy(req.password)
    requires !IsRateLimited(state.attempts, ClientIdentifier(req), now).limited
    requires credentials(req.username.value, req.password.value) == Invalid
    ensures var (resp, s) := Login(req, state, now, token, secretSet, sign, credentials);
            var before := IsRateLimited(state.attempts, ClientIdentifier(req), now).table;
            && resp.status == 401
            && s.sessions == state.sessions
            && s.attempts == RecordFailedAttempt(before, ClientIdentifier(req), now)
  {
  }

  /** A throw while checking the credentials (the timing-safe comparison of
      usernames of different byte length) is answered 500: no failure is
      recorded and no session created; only the limiter's own clean-up of an
      expired entry remains. */
  lemma CredentialThrowCountsNothing(
    req: LoginRequest, state: AuthState, now: int, token: string, secretSet: bool,
    sign: string -> string, credentials: (string, string) -> CredentialVerdict)
    requires Truthy(req.username) && Truthy(req.password)
    requires !IsRateLimited(state.attempts, ClientIdentifier(req), now).limited
    requires credentials(req.username.value, req.password.value) == Throws
    ensures var (resp, s) := Login(req, state, now, token, secretSet, sign, credentials);
            && resp == LoginResponse(500, None)
            && s.sessions == state.sessions
            && s.attempts == IsRateLimited(state.attempts, ClientIdentifier(req), now).table
            && (ClientIdentifier(req) in s.attempts ==> s.attempts[ClientIdentifier(req)] == state.attempts[ClientIdentifier(req)])
  {
  }

  /** Behind the real check, with an ASCII username of at most 100 characters
      configured, a username longer than 100 characters gets 500 and does not
      count towards the lockout. */
  lemma LongUsernameNotCounted(
    req: LoginRequest, state: AuthState, now: int, token: string, secretSet: bool, sign: string -> string,
    validUsername: string, validPassword: string, bcryptMatches: (string, string) -> bool)
    requires Truthy(req.username) && Truthy(req.password) && |req.username.value| > 100
    requires !IsRateLimited(state.attempts, ClientIdentifier(req), now).limited
    requires validUsername != "" && validPassword != ""
    requires |validUsername| <= 100 && forall i :: 0 <= i < |validUsername| ==> validUsername[i] as int < 0x80
    ensures var check := (u, p) => ValidateCredentials(u, p, Some(validUsername), Some(validPassword), bcryptMatches);
            var (resp, s) := Login(req, state, now, token, secretSet, sign, check);
            && resp.status == 500
            && s.attempts == IsRateLimited(state.attempts, ClientIdentifier(req), now).table
  {
    var check := (u, p) => ValidateCredentials(u, p, Some(validUsername), Some(validPassword), bcryptMatches);
    LongUsernameThrows(req.username.value, req.password.value, validUsername, validPassword, bcryptMatches);
    CredentialThrowCountsNothing(req, state, now, token, secretSet, sign, check);
  }

  /** Right credentials: the identifier's failures are cleared and no other entry
      changes; given a signing secret, a session for the fresh token is added and
      every other session is kept, otherwise the sessions are untouched. */
  lemma RightCredentialsClearAndCreate(
    req: LoginRequest, state: AuthState, now: int, token: string, secretSet: bool,
    sign: string -> string, credentials: (string, string) -> CredentialVerdict)
    requires Truthy(req.username) && Truthy(req.password)
    requires !IsRateLimited(state.attempts, ClientIdentifier(req), now).limited
    requires credentials(req.username.value, req.password.value) == Valid
    ensures var (resp, s) := Login(req, state, now, token, secretSet, sign, credentials);
            && ClientIdentifier(req) !in s.attempts
            && s.attempts == state.attempts - {ClientIdentifier(req)}
    ensures var (resp, s) := Login(req, state, now, token, secretSet, sign, credentials);
            secretSet ==>
              && resp.status == 200
              && resp.cookie == Some(token + "." + sign(token))
              && token in s.sessions && s.sessions[token].expiresAt == now + SESSION_DURATION
              && s.sessions == state.sessions[token := SessionData(token, now + SESSION_DURATION, now)]
    ensures var (resp, s) := Login(req, state, now, token, secretSet, sign, credentials);
            !secretSet ==> resp.status == 500 && s.sessions == state.sessions
  {
    var id := ClientIdentifier(req);
    var check := IsRateLimited(state.attempts, id, now);
    var cleared := ClearLoginAttempts(check.table, id);
    CheckThenClear(state.attempts, id, now);
    var r := Login(req, state, now, token, secretSet, sign, credentials);
    match CreateSession(state.sessions, secretSet, token, now, sign)
    case Err(_) =>
      assert r == (LoginResponse(500, None), AuthState(cleared, state.sessions));
    case Ok((sessions, cookie)) =>
      assert r == (LoginResponse(200, Some(cookie)), AuthState(cleared, sessions));
  }

  /** Whether or not the limiter dropped an expired entry, clearing afterwards
      leaves the table without the identifier and nothing else changed. */
  lemma CheckThenClear(table: AttemptTable, id: string, now: int)
    ensures ClearLoginAttempts(IsRateLimited(table, id, now).table, id) == table - {id}
  {
    var t := IsRateLimited(table, id, now).table;
    assert t == table || t == table - {id};
    assert t - {id} == table - {id};
  }

  /** Failed logins from one request shape, at the given times, in order. */
  function Replay(req: LoginRequest, state: AuthState, times: seq<int>, token: string, secretSet: bool,
                  sign: string -> string, credentials: (string, string) -> CredentialVerdict): AuthState
  {
    if |times| == 0 then state
    else Login(req, Replay(req, state, times[..|times| - 1], token, secretSet, sign, credentials),
               times[|times| - 1], token, secretSet, sign, credentials).1
  }

  function Reject(u: string, p: string): CredentialVerdict { Invalid }

  predicate NonDecreasing(times: seq<int>) {
    forall i, j :: 0 <= i < j < |times| ==> times[i] <= times[j]
  }

  /** One rejected login inside the open window counts one more failure. */
  lemma FailedLoginStep(
    req: LoginRequest, before: AuthState, now: int, token: string, secretSet: bool, sign: string -> string)
    requires Truthy(req.username) && Truthy(req.password)
    ensures var id := ClientIdentifier(req);
            var after := Login(req, before, now, token, secretSet, sign, Reject).1;
            && (id !in before.attempts ==> id in after.attempts && after.attempts[id] == Attempts(1, now + LOCKOUT_DURATION))
            && (id in before.attempts && now <= before.attempts[id].resetAt && before.attempts[id].count < MAX_LOGIN_ATTEMPTS ==>
                  && id in after.attempts
                  && after.attempts[id].count == before.attempts[id].count + 1
                  && after.attempts[id].resetAt ==
                       if after.attempts[id].count >= MAX_LOGIN_ATTEMPTS then now + LOCKOUT_DURATION
                       else before.attempts[id].resetAt)
  {
  }

  /** Up to five failures inside the window opened by the first one accumulate:
      the count is the number of failures, and the window moves only at the fifth. */
  lemma {:induction false} FailuresAccumulate(
    req: LoginRequest, state: AuthState, times: seq<int>, token: string, secretSet: bool, sign: string -> string)
    requires Truthy(req.username) && Truthy(req.password)
    requires ClientIdentifier(req) !in state.attempts
    requires 1 <= |times| <= MAX_LOGIN_ATTEMPTS
    requires NonDecreasing(times)
    requires forall i :: 0 <= i < |times| ==> times[i] <= times[0] + LOCKOUT_DURATION
    ensures var s := Replay(req, state, times, token, secretSet, sign, Reject);
            && ClientIdentifier(req) in s.attempts
            && s.attempts[ClientIdentifier(req)].count == |times|
            && s.attempts[ClientIdentifier(req)].resetAt ==
                 (if |times| == MAX_LOGIN_ATTEMPTS then times[|times| - 1] + LOCKOUT_DURATION else times[0] + LOCKOUT_DURATION)
  {
    var n := |times|;
    var prefix := times[..n - 1];
    var before := Replay(req, state, prefix, token, secretSet, sign, Reject);
    assert Replay(req, state, times, token, secretSet, sign, Reject)
        == Login(req, before, times[n - 1], token, secretSet, sign, Reject).1;
    if n > 1 {
      assert forall i :: 0 <= i < n - 1 ==> prefix[i] == times[i];
      FailuresAccumulate(req, state, prefix, token, secretSet, sign);
    } else {
      assert before == state;
    }
    FailedLoginStep(req, before, times[n - 1], token, secretSet, sign);
  }

  /** Five wrong logins within 15 minutes lock the client out: a sixth request
      within 15 minutes of the fifth gets 429, even with the right credentials. */
  lemma FiveFailuresLockOut(
    req: LoginRequest, state: AuthState, times: seq<int>, sixth: int, token: string, secretSet: bool,
    sign: string -> string, credentials: (string, string) -> CredentialVerdict)
    requires Truthy(req.username) && Truthy(req.password)
    requires ClientIdentifier(req) !in state.attempts
    requires |times| == MAX_LOGIN_ATTEMPTS
    requires NonDecreasing(times)
    requires forall i :: 0 <= i < |times| ==> times[i] <= times[0] + LOCKOUT_DURATION
    requires sixth <= times[4] + LOCKOUT_DURATION
    ensures var s := Replay(req, state, times, token, secretSet, sign, Reject);
            Login(req, s, sixth, token, secretSet, sign, credentials).0.status == 429
  {
    FailuresAccumulate(req, state, times, token, secretSet, sign);
  }
}
