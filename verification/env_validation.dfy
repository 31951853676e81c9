/** Start-up validation of the process environment. The environment is a map
    from variable name to value; a name outside the map is unset. */
module EnvValidation {
  import opened Wrappers
  import opened Strings

  type Env = map<string, string>

  function Get(env: Env, key: string): Option<string> {
    if key in env then Some(env[key]) else None
  }

  /** The variables that must be set (and not blank) in every mode. */
  const REQUIRED: seq<string> := ["OPENAI_API_KEY", "AUTH_USERNAME", "AUTH_PASSWORD", "SESSION_SECRET", "DATABASE_URL"]

  const MIN_SECRET_LENGTH: nat := 32

  const ERR_SECRET_SHORT := "SESSION_SECRET must be at least 32 characters long in production"
  const ERR_SECRET_DEFAULT := "SESSION_SECRET appears to be using default/example value. Generate a secure random secret."
  const ERR_WEAK_PASSWORD := "AUTH_PASSWORD is using a weak default value. Please use a strong password or bcrypt hash."
  const WARN_NOT_HASHED := "AUTH_PASSWORD is not bcrypt hashed. Consider using hashPassword() utility for better security."
  const WARN_KEY_FORMAT := "OPENAI_API_KEY does not match expected format (should start with sk-)"
  const WARN_NO_HTTPS := "NEXT_PUBLIC_APP_URL is not using HTTPS. Session cookies will not be fully secure."

  datatype ValidationResult = ValidationResult(valid: bool, errors: seq<string>, warnings: seq<string>)

  predicate IsProduction(env: Env) {
    Get(env, "NODE_ENV") == Some("production")
  }

  /** Unset, empty or only whitespace. */
  predicate IsMissing(env: Env, key: string) {
    key !in env || Trim(env[key]) == ""
  }

  function NotSetMessage(key: string): string {
    key + " is not set"
  }

  /** One `<KEY> is not set` message per missing variable, in the given order. */
  function MissingErrors(env: Env, keys: seq<string>): (errs: seq<string>)
    ensures forall k :: k in keys && IsMissing(env, k) ==> NotSetMessage(k) in errs
    ensures forall e :: e in errs ==> exists k :: k in keys && IsMissing(env, k) && e == NotSetMessage(k)
  {
    if |keys| == 0 then []
    else (if IsMissing(env, keys[0]) then [NotSetMessage(keys[0])] else []) + MissingErrors(env, keys[1..])
  }

  /** The bcrypt prefix check `/^\$2[aby]\$/`. */
  predicate LooksBcrypt(s: string) {
    |s| >= 4 && s[0] == '$' && s[1] == '2' && s[2] in "aby" && s[3] == '$'
  }

  /** The production-only errors, in the order they are pushed. */
  function ProductionErrors(env: Env): (errs: seq<string>)
    ensures var secret := Get(env, "SESSION_SECRET");
            ERR_SECRET_SHORT in errs <==> Truthy(secret) && |secret.value| < MIN_SECRET_LENGTH
    ensures var secret := Get(env, "SESSION_SECRET");
            ERR_SECRET_DEFAULT in errs <==>
              Truthy(secret) && (Contains(secret.value, "change-this") || Contains(secret.value, "your-secret"))
    ensures var password := Get(env, "AUTH_PASSWORD");
            ERR_WEAK_PASSWORD in errs <==> Truthy(password) && (password.value == "admin123" || password.value == "password")
    ensures forall e :: e in errs ==> e == ERR_SECRET_SHORT || e == ERR_SECRET_DEFAULT || e == ERR_WEAK_PASSWORD
  {
    var secret := Get(env, "SESSION_SECRET");
    var password := Get(env, "AUTH_PASSWORD");
    (if Truthy(secret) && |secret.value| < MIN_SECRET_LENGTH then [ERR_SECRET_SHORT] else [])
    + (if Truthy(secret) && (Contains(secret.value, "change-this") || Contains(secret.value, "your-secret")) then [ERR_SECRET_DEFAULT] else [])
    + (if Truthy(password) && (password.value == "admin123" || password.value == "password") then [ERR_WEAK_PASSWORD] else [])
  }

  /** The production-only warnings, in the order they are pushed. */
  function ProductionWarnings(env: Env): (warns: seq<string>)
    ensures var password := Get(env, "AUTH_PASSWORD");
            WARN_NOT_HASHED in warns <==> Truthy(password) && !LooksBcrypt(password.value)
    ensures var apiKey := Get(env, "OPENAI_API_KEY");
            WARN_KEY_FORMAT in warns <==> Truthy(apiKey) && !StartsWith(apiKey.value, "sk-")
    ensures var appUrl := Get(env, "NEXT_PUBLIC_APP_URL");
            WARN_NO_HTTPS in warns <==> !(appUrl.Some? && StartsWith(appUrl.value, "https://"))
    ensures forall w :: w in warns ==> w == WARN_NOT_HASHED || w == WARN_KEY_FORMAT || w == WARN_NO_HTTPS
  {
    var password := Get(env, "AUTH_PASSWORD");
    var apiKey := Get(env, "OPENAI_API_KEY");
    var appUrl := Get(env, "NEXT_PUBLIC_APP_URL");
    (if Truthy(password) && !LooksBcrypt(password.value) then [WARN_NOT_HASHED] else [])
    + (if Truthy(apiKey) && !StartsWith(apiKey.value, "sk-") then [WARN_KEY_FORMAT] else [])
    + (if !(appUrl.Some? && StartsWith(appUrl.value, "https://")) then [WARN_NO_HTTPS] else [])
  }

  /** `validateEnvironment`: missing variables are errors in every mode; the
      secret-strength and default-password checks are errors, and the hashing,
      key-format and HTTPS checks warnings, only in production. Valid means no
      errors; warnings never make the result invalid. */
  function ValidateEnvironment(env: Env): (r: ValidationResult)
    ensures r.valid <==> r.errors == []
    ensures forall k :: k in REQUIRED ==> (IsMissing(env, k) <==> NotSetMessage(k) in r.errors)
    ensures !IsProduction(env) ==> r.warnings == [] && r.errors == MissingErrors(env, REQUIRED)
    ensures IsProduction(env) ==> r.errors == MissingErrors(env, REQUIRED) + ProductionErrors(env)
    ensures IsProduction(env) ==> r.warnings == ProductionWarnings(env)
  {
    var errors := MissingErrors(env, REQUIRED) + (if IsProduction(env) then ProductionErrors(env) else []);
    var warnings := if IsProduction(env) then ProductionWarnings(env) else [];
    NotSetMessagesDistinct(env);
    ValidationResult(|errors| == 0, errors, warnings)
  }

  /** A `not set` message names exactly one required variable, and no production
      error reads like one. */
  lemma NotSetMessagesDistinct(env: Env)
    ensures forall k, j :: k in REQUIRED && j in REQUIRED && NotSetMessage(k) == NotSetMessage(j) ==> k == j
    ensures forall k :: k in REQUIRED ==> NotSetMessage(k) !in ProductionErrors(env)
  {
    forall k, j | k in REQUIRED && j in REQUIRED && NotSetMessage(k) == NotSetMessage(j)
      ensures k == j
    {
      assert |k| == |j|;
      assert k == NotSetMessage(k)[..|k|];
    }
    forall k | k in REQUIRED ensures NotSetMessage(k) !in ProductionErrors(env) {
      assert |NotSetMessage(k)| < 30;
    }
  }

  /** The outcome of `validateAndLog`: it throws only for an invalid environment in
      production; the log output is not modelled. */
  function ValidateAndLog(env: Env): (r: Result<ValidationResult, string>)
    ensures r.Err? <==> IsProduction(env) && !ValidateEnvironment(env).valid
    ensures r.Ok? ==> r.value == ValidateEnvironment(env)
  {
    var result := ValidateEnvironment(env);
    if !result.valid && IsProduction(env) then Err("Environment validation failed. Cannot start in production mode.")
    else Ok(result)
  }

  /** Outside production the application always starts, whatever is missing. */
  lemma DevelopmentAlwaysStarts(env: Env)
    requires !IsProduction(env)
    ensures ValidateAndLog(env).Ok?
    ensures ValidateAndLog(env).value.warnings == []
  {
  }

  /** Validity depends only on the required variables and `NODE_ENV`: an
      environment that differs only elsewhere (say in `NEXT_PUBLIC_APP_URL`) is
      judged the same. */
  lemma ValidityIgnoresOtherVariables(e1: Env, e2: Env)
    requires forall k :: k in REQUIRED ==> Get(e1, k) == Get(e2, k)
    requires Get(e1, "NODE_ENV") == Get(e2, "NODE_ENV")
    ensures ValidateEnvironment(e1).errors == ValidateEnvironment(e2).errors
  {
    MissingAgree(e1, e2, REQUIRED);
    assert REQUIRED[2] in REQUIRED && REQUIRED[3] in REQUIRED;
    ProductionErrorsAgree(e1, e2);
    ErrorsOf(e1);
    ErrorsOf(e2);
  }

  lemma ErrorsOf(env: Env)
    ensures ValidateEnvironment(env).errors
            == MissingErrors(env, REQUIRED) + (if IsProduction(env) then ProductionErrors(env) else [])
  {
  }

  /** The production errors read only the secret and the password. */
  lemma ProductionErrorsAgree(e1: Env, e2: Env)
    requires Get(e1, "SESSION_SECRET") == Get(e2, "SESSION_SECRET")
    requires Get(e1, "AUTH_PASSWORD") == Get(e2, "AUTH_PASSWORD")
    ensures ProductionErrors(e1) == ProductionErrors(e2)
  {
  }

  lemma {:induction false} MissingAgree(e1: Env, e2: Env, keys: seq<string>)
    requires forall k :: k in keys ==> Get(e1, k) == Get(e2, k)
    ensures MissingErrors(e1, keys) == MissingErrors(e2, keys)
  {
    if |keys| > 0 {
      assert keys[0] in keys;
      MissingAgree(e1, e2, keys[1..]);
    }
  }

  /** Switching to production only adds errors: the development errors come
      first, unchanged. */
  lemma ProductionIsStricter(env: Env)
    ensures var dev := ValidateEnvironment(env - {"NODE_ENV"}).errors;
            var prod := ValidateEnvironment(env["NODE_ENV" := "production"]).errors;
            |dev| <= |prod| && prod[..|dev|] == dev
  {
    var d := env - {"NODE_ENV"};
    var p := env["NODE_ENV" := "production"];
    forall k | k in REQUIRED ensures Get(d, k) == Get(p, k) {
    }
    MissingAgree(d, p, REQUIRED);
  }

  /** A production secret that still contains the example text is an error, so
      the application refuses to start. */
  lemma ExampleSecretRefused(env: Env)
    requires IsProduction(env)
    requires "SESSION_SECRET" in env && Contains(env["SESSION_SECRET"], "change-this")
    ensures ValidateAndLog(env).Err?
  {
    var r := ValidateEnvironment(env);
    assert env["SESSION_SECRET"] != "";
    assert ERR_SECRET_DEFAULT in ProductionErrors(env);
    assert ERR_SECRET_DEFAULT in r.errors;
  }
}
