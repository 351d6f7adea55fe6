/**
 * The request schemas of the user-management endpoints. The registration
 * schema of the auth endpoints uses the same four chains.
 */
module UsersValidation {
  import opened Wrappers
  import opened JsString
  import opened Errors
  import opened Validator

  const NamaLength := "Nama minimal 3 karakter"
  const EmailRequired := "Email wajib diisi"
  const EmailFormat := "Format email tidak valid"
  const PasswordLength := "Password minimal 8 karakter"
  const PasswordMix := "Password harus mengandung huruf dan angka"
  const RoleOptions := "Role harus ADMIN atau PETUGAS"

  /** The two values of the `Role` enum. */
  const Roles: seq<string> := ["ADMIN", "PETUGAS"]

  const NamaChain := Chain("nama", false, [San(TrimSpace), Check(NotEmpty, "Nama wajib diisi"), Check(MinLength(3), NamaLength)])
  const EmailChain := Chain("email", false,
    [San(TrimSpace), Check(NotEmpty, EmailRequired), Check(IsEmail, EmailFormat), San(NormalizeEmail)])
  const PasswordChain := Chain("password", false,
    [Check(NotEmpty, "Password wajib diisi"), Check(MinLength(8), PasswordLength), Check(Matches(LetterAndDigit), PasswordMix)])
  const RoleChain := Chain("role", false, [Check(NotEmpty, "Role wajib diisi"), Check(IsIn(Roles), RoleOptions)])

  /** `createUserValidation` (body). */
  const CreateUserRules: seq<Chain> := [NamaChain, EmailChain, PasswordChain, RoleChain]

  /** `updateUserValidation` (body): every field optional; no `notEmpty`. */
  const UpdateUserRules: seq<Chain> := [NewNamaChain, NewEmailChain, NewPasswordChain, NewRoleChain]

  const NewNamaChain := Chain("nama", true, [San(TrimSpace), Check(MinLength(3), NamaLength)])
  const NewEmailChain := Chain("email", true, [San(TrimSpace), Check(IsEmail, EmailFormat), San(NormalizeEmail)])
  const NewPasswordChain :=
    Chain("password", true, [Check(MinLength(8), PasswordLength), Check(Matches(LetterAndDigit), PasswordMix)])
  const NewRoleChain := Chain("role", true, [Check(IsIn(Roles), RoleOptions)])

  /** A password the schemas accept: eight characters or more, with a letter and a digit before any line break. */
  predicate StrongPassword(p: string) {
    |p| >= 8 && LetterAndDigitBeforeBreak(p)
  }

  lemma CreateShape()
    ensures var R := CreateUserRules;
      && DistinctFields(R) && |R| == 4
      && R[0] == NamaChain && R[1] == EmailChain && R[2] == PasswordChain && R[3] == RoleChain
      && !R[2].optional && NoSanitizer(R[2].steps) && |R[2].steps| == 3
      && R[2].steps[1].Check? && R[2].steps[1].rule == MinLength(8) && R[2].steps[1].message == PasswordLength
      && R[2].steps[2].Check? && R[2].steps[2].rule == Matches(LetterAndDigit) && R[2].steps[2].message == PasswordMix
      && !R[3].optional && NoSanitizer(R[3].steps) && |R[3].steps| == 2
      && R[3].steps[1].Check? && R[3].steps[1].rule == IsIn(Roles) && R[3].steps[1].message == RoleOptions
  {
  }

  /**
   * A create (or registration) request that passes carries a trimmed name of
   * at least three characters, the normalized form of a trimmed text
   * `isEmail` accepted, the password as sent and strong, and one of the two
   * roles as sent.
   */
  lemma CreateUserAccepted(body: Fields, env: Builtins)
    requires Validate(CreateUserRules, body, env).Ok?
    ensures var out := Validate(CreateUserRules, body, env).value;
      && "nama" in body && Get(out, "nama") == Some(Trim(body["nama"])) && |Trim(body["nama"])| >= 3
      && "email" in body && env.isEmail(Trim(body["email"]))
      && Get(out, "email") == Some(env.normalizeEmail(Trim(body["email"])))
      && "password" in body && Get(out, "password") == Some(body["password"]) && StrongPassword(body["password"])
      && "role" in body && Get(out, "role") == Some(body["role"]) && body["role"] in Roles
  {
    CreateShape();
    NamaAccepted(CreateUserRules, body, env, 0);
    EmailAccepted(CreateUserRules, body, env, 1);
    PasswordAccepted(CreateUserRules, body, env, 2);
    RoleAccepted(CreateUserRules, body, env, 3);
  }

  /** The name chain wherever it sits in a schema that passes: a trimmed name of three characters or more. */
  lemma NamaAccepted(chains: seq<Chain>, body: Fields, env: Builtins, j: nat)
    requires DistinctFields(chains) && j < |chains| && chains[j] == NamaChain
    requires Validate(chains, body, env).Ok?
    ensures "nama" in body && |Trim(body["nama"])| >= 3
    ensures Get(Validate(chains, body, env).value, "nama") == Some(Trim(body["nama"]))
  {
    var c := chains[j];
    assert c.steps[1..] == [c.steps[1], c.steps[2]];
    RequiredRuleHolds(chains, body, env, j, 2);
  }

  /** The password chain wherever it sits in a schema that passes: a strong password, kept as sent. */
  lemma PasswordAccepted(chains: seq<Chain>, body: Fields, env: Builtins, j: nat)
    requires DistinctFields(chains) && j < |chains| && chains[j] == PasswordChain
    requires Validate(chains, body, env).Ok?
    ensures "password" in body && StrongPassword(body["password"])
    ensures Get(Validate(chains, body, env).value, "password") == Some(body["password"])
  {
    PasswordField(chains, body, env, j, 1);
  }

  /** The role chain wherever it sits in a schema that passes: one of the two roles, kept as sent. */
  lemma RoleAccepted(chains: seq<Chain>, body: Fields, env: Builtins, j: nat)
    requires DistinctFields(chains) && j < |chains| && chains[j] == RoleChain
    requires Validate(chains, body, env).Ok?
    ensures "role" in body && body["role"] in Roles
    ensures Get(Validate(chains, body, env).value, "role") == Some(body["role"])
  {
    PlainRuleHolds(chains, body, env, j, 0);
    PlainRuleHolds(chains, body, env, j, 1);
  }

  /** A passing `notEmpty` after `trim()` means the client sent the field. */
  lemma EmailPresent(chains: seq<Chain>, body: Fields, env: Builtins, j: nat)
    requires DistinctFields(chains) && j < |chains| && RunSchema(chains, body, env).0 == [] && !chains[j].optional
    requires TrimChecksNormalize(chains[j]) && |chains[j].steps| >= 3 && chains[j].steps[1].Check? && chains[j].steps[1].rule == NotEmpty
    ensures chains[j].field in body
  {
    NormalizedRuleHolds(chains, body, env, j, 1);
    assert Trim("") == "";
  }

  /**
   * The email chain wherever it sits in a schema that passes: the client
   * sent an email whose trimmed text `isEmail` accepts, and the request now
   * holds the normalized form of that text.
   */
  lemma EmailAccepted(chains: seq<Chain>, body: Fields, env: Builtins, j: nat)
    requires DistinctFields(chains) && j < |chains| && chains[j] == EmailChain
    requires Validate(chains, body, env).Ok?
    ensures "email" in body && env.isEmail(Trim(body["email"]))
    ensures Get(Validate(chains, body, env).value, "email") == Some(env.normalizeEmail(Trim(body["email"])))
  {
    EmailPresent(chains, body, env, j);
    NormalizedRuleHolds(chains, body, env, j, 2);
  }

  /**
   * The email chain wherever it sits in a schema: an email that is absent or
   * only white space is reported as missing, and one whose trimmed text
   * `isEmail` refuses as malformed.
   */
  lemma EmailReported(chains: seq<Chain>, body: Fields, env: Builtins, j: nat)
    requires DistinctFields(chains) && j < |chains| && chains[j] == EmailChain
    ensures Trim(ToText(Get(body, "email"))) == [] ==>
      (Validate(chains, body, env).Err? && FieldError("email", EmailRequired) in Validate(chains, body, env).error.cls.errors)
    ensures !env.isEmail(Trim(ToText(Get(body, "email")))) ==>
      (Validate(chains, body, env).Err? && FieldError("email", EmailFormat) in Validate(chains, body, env).error.cls.errors)
  {
    if Trim(ToText(Get(body, "email"))) == [] {
      MissingNormalizedReported(chains, body, env, j);
    }
    if !env.isEmail(Trim(ToText(Get(body, "email")))) {
      NormalizedRuleReported(chains, body, env, j, 2);
    }
  }

  /**
   * The password chain of a passing schema, for a password that is required
   * or was sent: `isLength({min: 8})` at step `k` and the letter-and-digit
   * pattern after it held on the password as sent, which the request keeps.
   */
  lemma PasswordField(chains: seq<Chain>, body: Fields, env: Builtins, j: nat, k: nat)
    requires DistinctFields(chains) && j < |chains| && RunSchema(chains, body, env).0 == []
    requires chains[j].field in body || !chains[j].optional
    requires NoSanitizer(chains[j].steps) && k + 1 < |chains[j].steps|
    requires chains[j].steps[k].Check? && chains[j].steps[k].rule == MinLength(8)
    requires chains[j].steps[k + 1].Check? && chains[j].steps[k + 1].rule == Matches(LetterAndDigit)
    ensures var f := chains[j].field;
      f in body && Get(RunSchema(chains, body, env).1, f) == Some(body[f]) && StrongPassword(body[f])
  {
    var f := chains[j].field;
    PlainRuleHolds(chains, body, env, j, k);
    PlainRuleHolds(chains, body, env, j, k + 1);
    LetterAndDigitIff(ToText(Get(body, f)));
  }

  /** A password shorter than eight characters is refused with the length message. */
  lemma CreateUserRejectsShortPassword(body: Fields, env: Builtins)
    requires "password" in body && |body["password"]| < 8
    ensures Validate(CreateUserRules, body, env).Err?
    ensures FieldError("password", PasswordLength) in Validate(CreateUserRules, body, env).error.cls.errors
  {
    CreateShape();
    PlainRuleReported(CreateUserRules, body, env, 2, 1);
  }

  /** A password without a letter, or without a digit, before its first line break is refused with the pattern message. */
  lemma CreateUserRejectsPlainPassword(body: Fields, env: Builtins)
    requires "password" in body && !LetterAndDigitBeforeBreak(body["password"])
    ensures Validate(CreateUserRules, body, env).Err?
    ensures FieldError("password", PasswordMix) in Validate(CreateUserRules, body, env).error.cls.errors
  {
    CreateShape();
    LetterAndDigitIff(body["password"]);
    PlainRuleReported(CreateUserRules, body, env, 2, 2);
  }

  /** A role other than the two enum values is refused. */
  lemma CreateUserRejectsRole(body: Fields, env: Builtins)
    requires "role" in body && body["role"] !in Roles
    ensures Validate(CreateUserRules, body, env).Err?
    ensures FieldError("role", RoleOptions) in Validate(CreateUserRules, body, env).error.cls.errors
  {
    CreateShape();
    PlainRuleReported(CreateUserRules, body, env, 3, 1);
  }

  lemma UpdateShape()
    ensures var R := UpdateUserRules;
      DistinctFields(R) && |R| == 4
      && R[0] == NewNamaChain && R[1] == NewEmailChain && R[2] == NewPasswordChain && R[3] == NewRoleChain
  {
  }

  /** An update that passes carries each field it mentions with the create schema's guarantees. */
  lemma UpdateUserAccepted(body: Fields, env: Builtins)
    requires Validate(UpdateUserRules, body, env).Ok?
    ensures var out := Validate(UpdateUserRules, body, env).value;
      && ("nama" in body ==> Get(out, "nama") == Some(Trim(body["nama"])) && |Trim(body["nama"])| >= 3)
      && ("email" in body ==>
        env.isEmail(Trim(body["email"])) && Get(out, "email") == Some(env.normalizeEmail(Trim(body["email"]))))
      && ("password" in body ==> Get(out, "password") == Some(body["password"]) && StrongPassword(body["password"]))
      && ("role" in body ==> Get(out, "role") == Some(body["role"]) && body["role"] in Roles)
  {
    UpdateShape();
    NewNamaAccepted(UpdateUserRules, body, env, 0);
    NewEmailAccepted(UpdateUserRules, body, env, 1);
    NewPasswordAccepted(UpdateUserRules, body, env, 2);
    NewRoleAccepted(UpdateUserRules, body, env, 3);
  }

  /** The optional name chain of a passing schema: a name that was sent is trimmed and three characters or more. */
  lemma NewNamaAccepted(chains: seq<Chain>, body: Fields, env: Builtins, j: nat)
    requires DistinctFields(chains) && j < |chains| && chains[j] == NewNamaChain
    requires Validate(chains, body, env).Ok?
    ensures "nama" in body ==>
      Get(Validate(chains, body, env).value, "nama") == Some(Trim(body["nama"])) && |Trim(body["nama"])| >= 3
  {
    var c := chains[j];
    assert c.steps[1..] == [c.steps[1]];
    if "nama" in body { OptionalRuleHolds(chains, body, env, j, 1); }
  }

  /** The optional email chain of a passing schema: an email that was sent is accepted trimmed and stored normalized. */
  lemma NewEmailAccepted(chains: seq<Chain>, body: Fields, env: Builtins, j: nat)
    requires DistinctFields(chains) && j < |chains| && chains[j] == NewEmailChain
    requires Validate(chains, body, env).Ok?
    ensures "email" in body ==>
      env.isEmail(Trim(body["email"]))
      && Get(Validate(chains, body, env).value, "email") == Some(env.normalizeEmail(Trim(body["email"])))
  {
    if "email" in body { NormalizedRuleHolds(chains, body, env, j, 1); }
  }

  /** The optional password chain of a passing schema: a password that was sent is strong and kept as sent. */
  lemma NewPasswordAccepted(chains: seq<Chain>, body: Fields, env: Builtins, j: nat)
    requires DistinctFields(chains) && j < |chains| && chains[j] == NewPasswordChain
    requires Validate(chains, body, env).Ok?
    ensures "password" in body ==>
      Get(Validate(chains, body, env).value, "password") == Some(body["password"]) && StrongPassword(body["password"])
  {
    if "password" in body { PasswordField(chains, body, env, j, 0); }
  }

  /** The optional role chain of a passing schema: a role that was sent is one of the two and kept as sent. */
  lemma NewRoleAccepted(chains: seq<Chain>, body: Fields, env: Builtins, j: nat)
    requires DistinctFields(chains) && j < |chains| && chains[j] == NewRoleChain
    requires Validate(chains, body, env).Ok?
    ensures "role" in body ==> Get(Validate(chains, body, env).value, "role") == Some(body["role"]) && body["role"] in Roles
  {
    if "role" in body { PlainRuleHolds(chains, body, env, j, 0); }
  }
}
