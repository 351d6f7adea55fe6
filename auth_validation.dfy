/**
 * The request schemas of the login and registration endpoints. Registration
 * checks exactly what creating a user checks.
 */
module AuthValidation {
  import opened Wrappers
  import opened JsString
  import opened Errors
  import opened Validator
  import opened UsersValidation

  const PasswordRequired := "Password wajib diisi"

  /** `loginValidation` (body): the email chain of the user schemas, and a password that is only required. */
  const LoginRules: seq<Chain> := [EmailChain, Chain("password", false, [Check(NotEmpty, PasswordRequired)])]

  /** `registerValidation` (body): the same four chains, in the same order, as creating a user. */
  const RegisterRules: seq<Chain> := CreateUserRules

  lemma LoginShape()
    ensures var R := LoginRules;
      && DistinctFields(R) && |R| == 2
      && !R[0].optional && TrimChecksNormalize(R[0]) && |R[0].steps| == 4
      && R[0].steps[1].Check? && R[0].steps[1].rule == NotEmpty && R[0].steps[1].message == EmailRequired
      && R[0].steps[2].Check? && R[0].steps[2].rule == IsEmail && R[0].steps[2].message == EmailFormat
      && !R[1].optional && NoSanitizer(R[1].steps) && |R[1].steps| == 1
      && R[1].steps[0].Check? && R[1].steps[0].rule == NotEmpty && R[1].steps[0].message == PasswordRequired
  {
  }

  /**
   * A login that passes carries the normalized form of a trimmed email that
   * `isEmail` accepted, and a non-empty password exactly as sent.
   */
  lemma LoginAccepted(body: Fields, env: Builtins)
    requires Validate(LoginRules, body, env).Ok?
    ensures var out := Validate(LoginRules, body, env).value;
      && "email" in body && env.isEmail(Trim(body["email"]))
      && Get(out, "email") == Some(env.normalizeEmail(Trim(body["email"])))
      && "password" in body && body["password"] != [] && Get(out, "password") == Some(body["password"])
  {
    LoginShape();
    EmailAccepted(LoginRules, body, env, 0);
    PlainRuleHolds(LoginRules, body, env, 1, 0);
  }

  /**
   * A login whose email is absent or only white space is refused with the
   * message that asks for it, and one whose trimmed email `isEmail` refuses
   * with the format message.
   */
  lemma LoginEmailReported(body: Fields, env: Builtins)
    ensures Trim(ToText(Get(body, "email"))) == [] ==>
      (Validate(LoginRules, body, env).Err? && FieldError("email", EmailRequired) in Validate(LoginRules, body, env).error.cls.errors)
    ensures !env.isEmail(Trim(ToText(Get(body, "email")))) ==>
      (Validate(LoginRules, body, env).Err? && FieldError("email", EmailFormat) in Validate(LoginRules, body, env).error.cls.errors)
  {
    LoginShape();
    EmailReported(LoginRules, body, env, 0);
  }

  /** A login without a password (absent or empty) is refused. */
  lemma LoginNeedsPassword(body: Fields, env: Builtins)
    requires ToText(Get(body, "password")) == []
    ensures Validate(LoginRules, body, env).Err?
    ensures FieldError("password", PasswordRequired) in Validate(LoginRules, body, env).error.cls.errors
  {
    LoginShape();
    PlainRuleReported(LoginRules, body, env, 1, 0);
  }

  /**
   * The password is not trimmed: any non-empty password, one of white space
   * only included, passes its chain with no error and is passed on as sent.
   */
  lemma LoginPasswordNotTrimmed(body: Fields, env: Builtins)
    requires "password" in body && body["password"] != []
    ensures RunChain(LoginRules[1], body, env).0 == []
    ensures RunChain(LoginRules[1], body, env).1 == body
  {
    LoginShape();
    PlainChainPasses(LoginRules[1], body, env);
    ChainWithoutSanitizerKeeps(LoginRules[1], body, env);
  }
}
