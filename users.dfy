/**
 * Request schemas for creating and updating users: the field constraints,
 * the defaults, and the three shared validators (username characters,
 * password composition, password confirmation). Validation follows the
 * schema library's order: each field's length constraint, then its field
 * validator; errors of all fields are collected; the model validator runs
 * only when every field is valid.
 */
module Users {
  import opened Outcomes
  import opened Strings
  import Config
  import Security

  /** One validation error, attached to a field. */
  datatype SchemaError =
    | TooShort(field: string, minLength: nat)
    | TooLong(field: string, maxLength: nat)
    | Invalid(field: string, message: string)

  const UsernameMinLength: nat := 3
  const UsernameMaxLength: nat := 50
  const PasswordMinLength: nat := 8
  const PasswordMaxLength: nat := 100

  /** Independent statement of the username rule: letters, digits and `_` only, with at least one letter or digit. */
  predicate UsernameCharsAllowed(u: string) {
    (forall i :: 0 <= i < |u| ==> IsAlnumChar(u[i]) || u[i] == '_') &&
    (exists i :: 0 <= i < |u| && IsAlnumChar(u[i]))
  }

  /**
   * `validate_username`: an absent or empty name passes; otherwise the name
   * with its underscores removed must be a non-empty alphanumeric string.
   * The value is returned unchanged.
   */
  function ValidateUsername(v: Option<string>): (r: Result<Option<string>, string>)
    ensures r.Ok? <==> v.None? || v.value == [] || IsAlnum(RemoveChar(v.value, '_'))
    ensures r.Ok? ==> r.value == v
  {
    if v.Some? && v.value != [] && !IsAlnum(RemoveChar(v.value, '_')) then
      Err("Username must contain only letters, numbers, and underscores")
    else Ok(v)
  }

  /** The username validator accepts exactly the empty name and the names `UsernameCharsAllowed` describes. */
  lemma {:induction false} ValidateUsernameIff(u: string)
    ensures ValidateUsername(Some(u)).Ok? <==> u == [] || UsernameCharsAllowed(u)
  {
    var r := RemoveChar(u, '_');
    if u != [] {
      if IsAlnum(r) {
        forall i | 0 <= i < |u| && u[i] != '_'
          ensures IsAlnumChar(u[i])
        {
          assert multiset(u)[u[i]] > 0;
          assert multiset(r)[u[i]] > 0;
          assert u[i] in r;
        }
        assert r[0] in multiset(r);
        assert r[0] in u;
      }
      if UsernameCharsAllowed(u) {
        var i :| 0 <= i < |u| && IsAlnumChar(u[i]);
        assert multiset(u)[u[i]] > 0;
        assert multiset(r)[u[i]] > 0;
        forall j | 0 <= j < |r|
          ensures IsAlnumChar(r[j])
        {
          assert r[j] in multiset(r);
          assert r[j] in multiset(u);
          assert r[j] in u;
        }
      }
    }
  }

  /** A name made only of underscores, such as "___", is refused. */
  lemma AllUnderscoresRejected(u: string)
    requires u != [] && forall i :: 0 <= i < |u| ==> u[i] == '_'
    ensures ValidateUsername(Some(u)).Err?
  {
    ValidateUsernameIff(u);
  }

  /** The composition rules of the schema's password validator. */
  predicate PasswordCompositionOk(p: string) {
    HasDigit(p) && HasUpper(p) && HasLower(p)
  }

  /**
   * The schemas' `validate_password_strength`: an absent or empty password
   * is not checked; otherwise it needs a digit, an upper-case and a
   * lower-case letter (and, unlike the security module's rule, no special
   * character). The first missing kind names the error.
   */
  function ValidatePassword(v: Option<string>): (r: Result<Option<string>, string>)
    ensures r.Ok? <==> v.None? || v.value == [] || PasswordCompositionOk(v.value)
    ensures r.Ok? ==> r.value == v
    ensures v.Some? && v.value != [] && !HasDigit(v.value) ==> r == Err("Password must contain at least one digit")
    ensures v.Some? && HasDigit(v.value) && !HasUpper(v.value) ==> r == Err("Password must contain at least one uppercase letter")
    ensures v.Some? && HasDigit(v.value) && HasUpper(v.value) && !HasLower(v.value) ==>
      r == Err("Password must contain at least one lowercase letter")
  {
    if v.Some? && v.value != [] then
      var p := v.value;
      if !HasDigit(p) then Err("Password must contain at least one digit")
      else if !HasUpper(p) then Err("Password must contain at least one uppercase letter")
      else if !HasLower(p) then Err("Password must contain at least one lowercase letter")
      else Ok(v)
    else Ok(v)
  }

  /** Every password the security rules accept is accepted by the schema validator. */
  lemma SecurityRulesImplySchemaRules(p: string, settings: Config.Settings)
    requires Security.MeetsStrengthRules(p, settings)
    ensures ValidatePassword(Some(p)).Ok?
  {
  }

  /** The converse fails: "Password1" satisfies the schema but not the security rules. */
  lemma SchemaRulesWeakerThanSecurityRules(secret: string)
    ensures ValidatePassword(Some("Password1")).Ok?
    ensures Security.ValidatePasswordStrength("Password1", Config.Defaults(secret)).Err?
  {
    var p := "Password1";
    assert IsDigit(p[8]) && IsUpper(p[0]) && IsLower(p[1]);
    Security.DefaultStrengthNeedsSpecial(secret);
  }

  /**
   * `validate_passwords_match`: refused whenever `password` differs from
   * `confirm_password`. An absent password (`None`) differs from every
   * string.
   */
  function ValidatePasswordsMatch(password: Option<string>, confirmPassword: string): (r: Result<(), string>)
    ensures r.Ok? <==> password == Some(confirmPassword)
  {
    if password != Some(confirmPassword) then Err("Password and confirm password do not match") else Ok(())
  }

  /** Errors of a string field with a length constraint, followed by its validator. */
  function FieldErrors(field: string, v: string, minLength: nat, maxLength: nat,
                       validator: Option<string> -> Result<Option<string>, string>): (errs: seq<SchemaError>)
    ensures errs == [] <==> minLength <= |v| <= maxLength && validator(Some(v)).Ok?
  {
    if |v| < minLength then [TooShort(field, minLength)]
    else if |v| > maxLength then [TooLong(field, maxLength)]
    else match validator(Some(v))
      case Err(m) => [Invalid(field, m)]
      case Ok(_) => []
  }

  /** Errors of an optional string field: `None` is always valid. */
  function OptionalFieldErrors(field: string, v: Option<string>, minLength: nat, maxLength: nat,
                               validator: Option<string> -> Result<Option<string>, string>): (errs: seq<SchemaError>)
    ensures errs == [] <==> v.None? || (minLength <= |v.value| <= maxLength && validator(v).Ok?)
  {
    if v.None? then [] else FieldErrors(field, v.value, minLength, maxLength, validator)
  }

  /** The body of a create request; `None` marks a field left at its default. */
  datatype UserCreateInput = UserCreateInput(
    username: string, email: string, password: string, confirmPassword: string,
    isActive: Option<bool>, isSuperuser: Option<bool>)

  /** A validated `UserCreateSchema`. */
  datatype UserCreate = UserCreate(
    username: string, email: string, password: string, confirmPassword: string,
    isActive: bool, isSuperuser: bool)

  /**
   * `UserCreateSchema`: username of 3 to 50 characters passing the
   * username rule, password of 8 to 100 characters passing the composition
   * rule, and a matching confirmation. `is_active` defaults to true and
   * `is_superuser` to false.
   */
  function ValidateUserCreate(input: UserCreateInput): (r: Result<UserCreate, seq<SchemaError>>)
    ensures r.Ok? <==>
      UsernameMinLength <= |input.username| <= UsernameMaxLength && ValidateUsername(Some(input.username)).Ok? &&
      PasswordMinLength <= |input.password| <= PasswordMaxLength && PasswordCompositionOk(input.password) &&
      input.password == input.confirmPassword
    ensures r.Ok? ==>
      r.value.username == input.username && r.value.email == input.email &&
      r.value.password == input.password && r.value.confirmPassword == input.confirmPassword &&
      r.value.isActive == input.isActive.GetOr(true) && r.value.isSuperuser == input.isSuperuser.GetOr(false)
    ensures r.Err? ==> r.error != []
  {
    var errs := FieldErrors("username", input.username, UsernameMinLength, UsernameMaxLength, ValidateUsername)
              + FieldErrors("password", input.password, PasswordMinLength, PasswordMaxLength, ValidatePassword);
    if errs != [] then Err(errs)
    else match ValidatePasswordsMatch(Some(input.password), input.confirmPassword)
      case Err(m) => Err([Invalid("", m)])
      case Ok(_) =>
        Ok(UserCreate(input.username, input.email, input.password, input.confirmPassword,
                      input.isActive.GetOr(true), input.isSuperuser.GetOr(false)))
  }

  /** The body of an update request: every field but `confirm_password` may be absent. */
  datatype UserUpdate = UserUpdate(
    username: Option<string>, email: Option<string>, password: Option<string>, confirmPassword: string,
    isActive: Option<bool>, isSuperuser: Option<bool>)

  /** Field constraints of `UserUpdateSchema`: the create bounds, applied only to fields that are present. */
  function UpdateFieldErrors(input: UserUpdate): (errs: seq<SchemaError>)
    ensures errs == [] <==>
      (input.username.None? ||
        (UsernameMinLength <= |input.username.value| <= UsernameMaxLength && ValidateUsername(input.username).Ok?)) &&
      (input.password.None? ||
        (PasswordMinLength <= |input.password.value| <= PasswordMaxLength && PasswordCompositionOk(input.password.value)))
  {
    OptionalFieldErrors("username", input.username, UsernameMinLength, UsernameMaxLength, ValidateUsername)
    + OptionalFieldErrors("password", input.password, PasswordMinLength, PasswordMaxLength, ValidatePassword)
  }

  /**
   * `UserUpdateSchema` as written: the field constraints, then the shared
   * confirmation check, which compares an absent password with the
   * required `confirm_password` string.
   */
  function ValidateUserUpdate(input: UserUpdate): (r: Result<UserUpdate, seq<SchemaError>>)
    ensures r.Ok? <==> UpdateFieldErrors(input) == [] && input.password == Some(input.confirmPassword)
    ensures r.Ok? ==> r.value == input
  {
    var errs := UpdateFieldErrors(input);
    if errs != [] then Err(errs)
    else match ValidatePasswordsMatch(input.password, input.confirmPassword)
      case Err(m) => Err([Invalid("", m)])
      case Ok(_) => Ok(input)
  }

  /** As written, no update that leaves the password out can pass validation, whatever else it holds. */
  lemma UpdateWithoutPasswordRejected(input: UserUpdate)
    requires input.password.None?
    ensures ValidateUserUpdate(input).Err?
  {
  }

  /** The confirmation rule when the password is optional: checked only when a password is given. */
  function ValidatePasswordsMatchWhenGiven(password: Option<string>, confirmPassword: string): (r: Result<(), string>)
    ensures r.Ok? <==> password.None? || password.value == confirmPassword
  {
    if password.Some? && password.value != confirmPassword then Err("Password and confirm password do not match") else Ok(())
  }

  /** `UserUpdateSchema` with the confirmation applied only to a supplied password. */
  function ValidateUserUpdateCorrected(input: UserUpdate): (r: Result<UserUpdate, seq<SchemaError>>)
    ensures r.Ok? <==> UpdateFieldErrors(input) == [] && (input.password.None? || input.password.value == input.confirmPassword)
    ensures r.Ok? ==> r.value == input
  {
    var errs := UpdateFieldErrors(input);
    if errs != [] then Err(errs)
    else match ValidatePasswordsMatchWhenGiven(input.password, input.confirmPassword)
      case Err(m) => Err([Invalid("", m)])
      case Ok(_) => Ok(input)
  }

  /**
   * The corrected schema accepts an update of other fields alone, still
   * refuses a supplied password that differs from its confirmation, and
   * agrees with the written one whenever a password is supplied.
   */
  lemma UpdateCorrectedAcceptsMissingPassword(input: UserUpdate)
    ensures input.password.None? && input.username.None? ==> ValidateUserUpdateCorrected(input) == Ok(input)
    ensures input.password.Some? && input.password.value != input.confirmPassword ==> ValidateUserUpdateCorrected(input).Err?
    ensures input.password.Some? ==> ValidateUserUpdateCorrected(input) == ValidateUserUpdate(input)
  {
  }
}
