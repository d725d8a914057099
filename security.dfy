/**
 * Password-strength rules and the claim sets of the application's JWTs.
 * Signing, decoding and bcrypt are library calls and are not modelled: a
 * token is represented by the claim map it carries, and a decoded refresh
 * token arrives as a parameter.
 */
module Security {
  import opened Outcomes
  import opened Strings
  import Config

  /** A value in a token payload. `Expiry` is the `exp` timestamp, in seconds. */
  datatype Claim = Text(text: string) | Number(n: int) | Expiry(at: int)

  type Claims = map<string, Claim>

  /** An `HTTPException`: status code and detail. */
  datatype HttpError = HttpError(status: nat, detail: string)

  const HttpBadRequest: nat := 400
  const HttpUnauthorized: nat := 401

  /**
   * The expiry instant: `now + expires_delta` when a delta is given and is
   * truthy (a zero `timedelta` is falsy), otherwise `now + fallback`.
   */
  function ExpiryTime(now: int, expiresDelta: Option<int>, fallback: int): (e: int)
    ensures expiresDelta.Some? && expiresDelta.value != 0 ==> e == now + expiresDelta.value
    ensures expiresDelta.None? || expiresDelta.value == 0 ==> e == now + fallback
  {
    if expiresDelta.Some? && expiresDelta.value != 0 then now + expiresDelta.value else now + fallback
  }

  /**
   * The claims of `create_access_token(data, expires_delta)`: a copy of
   * `data` with `exp` added (replacing any `exp` already in it).
   */
  function AccessTokenClaims(data: Claims, now: int, expiresDelta: Option<int>, settings: Config.Settings): (c: Claims)
    ensures c.Keys == data.Keys + {"exp"}
    ensures forall k :: k in data && k != "exp" ==> c[k] == data[k]
    ensures c["exp"] == Expiry(ExpiryTime(now, expiresDelta, settings.jwtAccessTokenExpireMinutes * 60))
  {
    data["exp" := Expiry(ExpiryTime(now, expiresDelta, settings.jwtAccessTokenExpireMinutes * 60))]
  }

  /**
   * The claims of `create_refresh_token(data, expires_delta)`: a copy of
   * `data` with `exp` and `type = "refresh"` added.
   */
  function RefreshTokenClaims(data: Claims, now: int, expiresDelta: Option<int>, settings: Config.Settings): (c: Claims)
    ensures c.Keys == data.Keys + {"exp", "type"}
    ensures forall k :: k in data && k != "exp" && k != "type" ==> c[k] == data[k]
    ensures c["type"] == Text("refresh")
    ensures c["exp"] == Expiry(ExpiryTime(now, expiresDelta, settings.jwtRefreshTokenExpireDays * 86400))
  {
    data["exp" := Expiry(ExpiryTime(now, expiresDelta, settings.jwtRefreshTokenExpireDays * 86400))]["type" := Text("refresh")]
  }

  /** The result of `create_token_pair`. */
  datatype TokenPair = TokenPair(accessToken: Claims, refreshToken: Claims, tokenType: string)

  /** `create_token_pair`: both tokens carry the user data, with default lifetimes; the type is always "bearer". */
  function CreateTokenPair(userData: Claims, now: int, settings: Config.Settings): (p: TokenPair)
    ensures p.tokenType == "bearer"
    ensures p.accessToken.Keys == userData.Keys + {"exp"}
    ensures p.refreshToken.Keys == userData.Keys + {"exp", "type"} && p.refreshToken["type"] == Text("refresh")
    ensures forall k :: k in userData && k != "exp" && k != "type" ==>
      p.accessToken[k] == userData[k] && p.refreshToken[k] == userData[k]
    ensures p.accessToken == AccessTokenClaims(userData, now, None, settings)
    ensures p.refreshToken == RefreshTokenClaims(userData, now, None, settings)
  {
    TokenPair(AccessTokenClaims(userData, now, None, settings), RefreshTokenClaims(userData, now, None, settings), "bearer")
  }

  /**
   * `refresh_access_token`: `decoded` is what the JWT library returned for
   * the token (`Err` stands for a `JWTError`). A payload whose `type` is not
   * "refresh" is refused; otherwise a new access token is made from the
   * payload without its `exp` and `type` claims.
   */
  function RefreshAccessToken(decoded: Result<Claims, string>, now: int, settings: Config.Settings): (r: Result<Claims, HttpError>)
    ensures decoded.Err? ==> r == Err(HttpError(HttpUnauthorized, "Invalid refresh token"))
    ensures decoded.Ok? && !("type" in decoded.value && decoded.value["type"] == Text("refresh")) ==>
      r == Err(HttpError(HttpUnauthorized, "Invalid token type"))
    ensures decoded.Ok? && "type" in decoded.value && decoded.value["type"] == Text("refresh") ==>
      r.Ok? && r.value.Keys == decoded.value.Keys - {"type"} + {"exp"} &&
      (forall k :: k in decoded.value && k != "exp" && k != "type" ==> r.value[k] == decoded.value[k]) &&
      r.value["exp"] == Expiry(now + settings.jwtAccessTokenExpireMinutes * 60)
  {
    match decoded
    case Err(_) => Err(HttpError(HttpUnauthorized, "Invalid refresh token"))
    case Ok(payload) =>
      if "type" !in payload || payload["type"] != Text("refresh") then
        Err(HttpError(HttpUnauthorized, "Invalid token type"))
      else
        var userData := map k | k in payload && k != "exp" && k != "type" :: payload[k];
        Ok(AccessTokenClaims(userData, now, None, settings))
  }

  /**
   * Refreshing a refresh token made from `data` (which holds no `exp` or
   * `type` claim of its own) gives exactly the access token that
   * `create_access_token(data)` would give at the time of the refresh.
   */
  lemma RefreshRoundTrip(data: Claims, issued: int, expiresDelta: Option<int>, now: int, settings: Config.Settings)
    requires "exp" !in data && "type" !in data
    ensures RefreshAccessToken(Ok(RefreshTokenClaims(data, issued, expiresDelta, settings)), now, settings)
      == Ok(AccessTokenClaims(data, now, None, settings))
  {
    var payload := RefreshTokenClaims(data, issued, expiresDelta, settings);
    var userData := map k | k in payload && k != "exp" && k != "type" :: payload[k];
    assert userData == data;
  }

  /** An access token made from data without a `type` claim cannot be used as a refresh token. */
  lemma AccessTokenIsNotRefreshToken(data: Claims, issued: int, expiresDelta: Option<int>, now: int, settings: Config.Settings)
    requires "type" !in data
    ensures RefreshAccessToken(Ok(AccessTokenClaims(data, issued, expiresDelta, settings)), now, settings)
      == Err(HttpError(HttpUnauthorized, "Invalid token type"))
  {
  }

  /**
   * The five rules of `validate_password_strength`, all together. A digit,
   * an upper-case and a lower-case letter are three different characters,
   * so a strong password has at least three whatever the minimum length.
   */
  predicate MeetsStrengthRules(password: string, settings: Config.Settings)
    ensures MeetsStrengthRules(password, settings) ==> |password| >= settings.passwordMinLength && |password| >= 3
  {
    |password| >= settings.passwordMinLength &&
    HasDigit(password) && HasUpper(password) && HasLower(password) &&
    HasCharFrom(password, settings.passwordSpecialChars)
  }

  /**
   * `validate_password_strength`: returns true, or raises a 400 whose detail
   * names the first rule, in the order length, digit, upper case, lower
   * case, special character, that the password breaks.
   */
  function ValidatePasswordStrength(password: string, settings: Config.Settings): (r: Result<bool, HttpError>)
    ensures r.Ok? <==> MeetsStrengthRules(password, settings)
    ensures r.Ok? ==> r.value
    ensures r.Err? ==> r.error.status == HttpBadRequest
    ensures |password| < settings.passwordMinLength ==>
      r.error.detail == "Password must be at least " + IntToString(settings.passwordMinLength) + " characters long"
    ensures |password| >= settings.passwordMinLength && !HasDigit(password) ==>
      r.error.detail == "Password must contain at least one digit"
    ensures |password| >= settings.passwordMinLength && HasDigit(password) && !HasUpper(password) ==>
      r.error.detail == "Password must contain at least one uppercase letter"
    ensures |password| >= settings.passwordMinLength && HasDigit(password) && HasUpper(password) && !HasLower(password) ==>
      r.error.detail == "Password must contain at least one lowercase letter"
    ensures (|password| >= settings.passwordMinLength && HasDigit(password) && HasUpper(password) &&
             HasLower(password) && !HasCharFrom(password, settings.passwordSpecialChars)) ==>
      r.error.detail == "Password must contain at least one special character: " + settings.passwordSpecialChars
  {
    if |password| < settings.passwordMinLength then
      Err(HttpError(HttpBadRequest, "Password must be at least " + IntToString(settings.passwordMinLength) + " characters long"))
    else if !HasDigit(password) then
      Err(HttpError(HttpBadRequest, "Password must contain at least one digit"))
    else if !HasUpper(password) then
      Err(HttpError(HttpBadRequest, "Password must contain at least one uppercase letter"))
    else if !HasLower(password) then
      Err(HttpError(HttpBadRequest, "Password must contain at least one lowercase letter"))
    else if !HasCharFrom(password, settings.passwordSpecialChars) then
      Err(HttpError(HttpBadRequest, "Password must contain at least one special character: " + settings.passwordSpecialChars))
    else
      Ok(true)
  }

  /** With the default settings, "Passw0rd!" passes. */
  lemma DefaultStrengthAccepts(secret: string)
    ensures ValidatePasswordStrength("Passw0rd!", Config.Defaults(secret)) == Ok(true)
  {
    var good := "Passw0rd!";
    assert IsDigit(good[5]) && IsUpper(good[0]) && IsLower(good[1]);
    assert good[8] == Config.DefaultPasswordSpecialChars[0];
  }

  /** With the default settings, "Password1" is refused for want of a special character. */
  lemma DefaultStrengthNeedsSpecial(secret: string)
    ensures ValidatePasswordStrength("Password1", Config.Defaults(secret))
      == Err(HttpError(HttpBadRequest, "Password must contain at least one special character: " + Config.DefaultPasswordSpecialChars))
  {
    var bad := "Password1";
    assert IsDigit(bad[8]) && IsUpper(bad[0]) && IsLower(bad[1]);
    forall i | 0 <= i < |bad|
      ensures bad[i] !in Config.DefaultPasswordSpecialChars
    {
      assert IsAlnumChar(bad[i]);
    }
  }
}
