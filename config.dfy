/**
 * Application settings: the fields the other modules read, their defaults,
 * the "before" validators that normalise or reject raw values, and the
 * environment properties.
 */
module Config {
  import opened Outcomes
  import opened Strings

  /** The part of `Settings` that the rest of the model reads. */
  datatype Settings = Settings(
    appEnv: string,
    jwtSecretKey: string,
    jwtAccessTokenExpireMinutes: int,
    jwtRefreshTokenExpireDays: int,
    passwordMinLength: int,
    passwordSpecialChars: string,
    corsOrigins: seq<string>,
    corsAllowMethods: seq<string>,
    corsAllowHeaders: seq<string>,
    corsExposeHeaders: seq<string>,
    rateLimitRequestsPerMinute: int,
    rateLimitRequestsPerHour: int,
    testing: bool)
  {
    /** `is_development`; never true together with `is_production`. */
    predicate IsDevelopment()
      ensures IsDevelopment() ==> !IsProduction()
    {
      appEnv == "dev"
    }

    /** `is_production`; a production environment is neither dev nor staging. */
    predicate IsProduction()
      ensures IsProduction() ==> appEnv != "dev" && appEnv != "staging"
    {
      appEnv == "prod"
    }

    /** `is_testing`. */
    predicate IsTesting() {
      testing
    }
  }

  const DefaultPasswordSpecialChars: string := "!@#$%^&*()_+-=[]{}|;:,.<>?"

  /**
   * Every field at its declared default. `JWT_SECRET_KEY` has none, so it is
   * the one argument.
   */
  function Defaults(jwtSecretKey: string): (s: Settings)
    ensures s.IsDevelopment() && !s.IsProduction()
    ensures s.rateLimitRequestsPerMinute == 60 && s.rateLimitRequestsPerHour == 1000
    ensures s.passwordMinLength == 8
  {
    Settings(
      appEnv := "dev",
      jwtSecretKey := jwtSecretKey,
      jwtAccessTokenExpireMinutes := 30,
      jwtRefreshTokenExpireDays := 7,
      passwordMinLength := 8,
      passwordSpecialChars := DefaultPasswordSpecialChars,
      corsOrigins := ["http://localhost:8081", "http://localhost:3000"],
      corsAllowMethods := ["GET", "POST", "PUT", "DELETE", "PATCH", "OPTIONS"],
      corsAllowHeaders := ["*"],
      corsExposeHeaders := ["X-Total-Count", "X-Page-Count"],
      rateLimitRequestsPerMinute := 60,
      rateLimitRequestsPerHour := 1000,
      testing := false)
  }

  /** A raw value handed to a "before" validator: a string, a list of strings, or anything else. */
  datatype RawValue = Text(text: string) | TextList(items: seq<string>) | Other

  /**
   * The shared body of the four CORS list validators: a string that does not
   * start with `[` becomes its comma-separated pieces, each stripped; a list,
   * or a string starting with `[` (left for JSON parsing), passes unchanged;
   * anything else raises `ValueError(v)`.
   */
  function AssembleCommaList(v: RawValue): (r: Result<RawValue, RawValue>)
    ensures v.Text? && !StartsWith(v.text, "[") ==>
      r.Ok? && r.value.TextList? && |r.value.items| == multiset(v.text)[','] + 1
    ensures v.Text? && !StartsWith(v.text, "[") ==>
      |r.value.items| == |Split(v.text, ',')| &&
      forall k :: 0 <= k < |r.value.items| ==> r.value.items[k] == Strip(Split(v.text, ',')[k])
    ensures v.Text? && StartsWith(v.text, "[") ==> r == Ok(v)
    ensures v.TextList? ==> r == Ok(v)
    ensures v.Other? ==> r == Err(v)
  {
    match v
    case Text(s) =>
      if !StartsWith(s, "[") then
        var parts := Split(s, ',');
        SplitCount(s, ',');
        Ok(TextList(seq(|parts|, k requires 0 <= k < |parts| => Strip(parts[k]))))
      else Ok(v)
    case TextList(_) => Ok(v)
    case Other => Err(v)
  }

  /** Every piece the split produces is stripped and holds no comma. */
  lemma {:induction false} CommaListPiecesTrimmed(s: string)
    requires !StartsWith(s, "[")
    ensures var items := AssembleCommaList(Text(s)).value.items;
      forall k :: 0 <= k < |items| ==>
        ',' !in items[k] && (items[k] != [] ==> !IsSpace(items[k][0]) && !IsSpace(items[k][|items[k]| - 1]))
  {
    var parts := Split(s, ',');
    var items := AssembleCommaList(Text(s)).value.items;
    forall k | 0 <= k < |items|
      ensures ',' !in items[k]
    {
      assert items[k] == Strip(parts[k]);
    }
  }

  /** For a list written without white space, joining the pieces with commas gives the string back. */
  lemma {:induction false} CommaListRoundTrip(s: string)
    requires !StartsWith(s, "[")
    requires forall i :: 0 <= i < |s| ==> !IsSpace(s[i])
    ensures Join(AssembleCommaList(Text(s)).value.items, ',') == s
  {
    var parts := Split(s, ',');
    var items := AssembleCommaList(Text(s)).value.items;
    forall k | 0 <= k < |parts|
      ensures items[k] == parts[k]
    {
      SplitPiecesFromString(s, ',', k);
      var p := parts[k];
      if p != [] {
        assert p[0] in s && p[|p| - 1] in s;
      }
      StripTrimmed(p);
    }
    assert items == parts;
    JoinSplit(s, ',');
  }

  /** Every character of a piece of `Split(s, sep)` comes from `s`. */
  lemma {:induction false} SplitPiecesFromString(s: string, sep: char, k: nat)
    requires k < |Split(s, sep)|
    ensures forall c :: c in Split(s, sep)[k] ==> c in s
  {
    if s != [] {
      var rest := Split(s[1..], sep);
      if s[0] == sep {
        if k > 0 { SplitPiecesFromString(s[1..], sep, k - 1); }
      } else if k == 0 {
        SplitPiecesFromString(s[1..], sep, 0);
      } else {
        SplitPiecesFromString(s[1..], sep, k);
      }
    }
  }

  /** `validate_secret_key`: fewer than 32 characters is rejected, anything else kept as given. */
  function ValidateSecretKey(v: string): (r: Result<string, string>)
    ensures r.Ok? <==> |v| >= 32
    ensures r.Ok? ==> r.value == v
  {
    if |v| < 32 then Err("JWT_SECRET_KEY must be at least 32 characters long") else Ok(v)
  }

  const AllowedEnvironments: seq<string> := ["dev", "staging", "prod"]

  /** `validate_environment`: only `dev`, `staging` and `prod` are accepted, unchanged. */
  function ValidateEnvironment(v: string): (r: Result<string, string>)
    ensures r.Ok? <==> v == "dev" || v == "staging" || v == "prod"
    ensures r.Ok? ==> r.value == v
  {
    if v !in AllowedEnvironments then Err("APP_ENV must be one of ['dev', 'staging', 'prod']") else Ok(v)
  }

  /** Once `APP_ENV` has been validated, a settings object is development, production or staging, and exactly one of them. */
  lemma ValidatedEnvironmentClassified(s: Settings)
    requires ValidateEnvironment(s.appEnv).Ok?
    ensures s.IsDevelopment() != s.IsProduction() || s.appEnv == "staging"
    ensures s.appEnv == "staging" ==> !s.IsDevelopment() && !s.IsProduction()
  {
  }
}
