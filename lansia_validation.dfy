/**
 * The request schemas of the elderly-resident (lansia) endpoints, and what a
 * request that passes them guarantees to the service.
 */
module LansiaValidation {
  import opened Wrappers
  import opened JsString
  import opened Errors
  import opened Validator
  import opened PaginationValidation

  const NamaLength := "Nama minimal 3 karakter"
  const NikFormat := "NIK harus berupa 16 digit angka"
  const TanggalFormat := "Format tanggal tidak valid"
  const AlamatLength := "Alamat minimal 10 karakter"
  const KontakFormat := "Format kontak keluarga tidak valid"

  /** `createLansiaValidation` (body). */
  const CreateLansiaRules: seq<Chain> := [
    Chain("nama", false, [San(TrimSpace), Check(NotEmpty, "Nama wajib diisi"), Check(MinLength(3), NamaLength)]),
    Chain("nik", false, [San(TrimSpace), Check(NotEmpty, "NIK wajib diisi"), Check(Matches(SixteenDigits), NikFormat)]),
    Chain("tanggal_lahir", false,
      [Check(NotEmpty, "Tanggal lahir wajib diisi"), Check(IsISO8601, TanggalFormat), Cust(NotInFuture)]),
    Chain("alamat", false, [San(TrimSpace), Check(NotEmpty, "Alamat wajib diisi"), Check(MinLength(10), AlamatLength)]),
    Chain("penyakit_bawaan", false, [San(TrimSpace), Check(NotEmpty, "Penyakit bawaan wajib diisi")]),
    Chain("kontak_keluarga", false,
      [San(TrimSpace), Check(NotEmpty, "Kontak keluarga wajib diisi"), Check(Matches(PhoneChars), KontakFormat)])
  ]

  /** `updateLansiaValidation` (body): every field optional, the same checks when present. */
  const UpdateLansiaRules: seq<Chain> := [
    Chain("nama", true, [San(TrimSpace), Check(MinLength(3), NamaLength)]),
    Chain("nik", true, [San(TrimSpace), Check(Matches(SixteenDigits), NikFormat)]),
    Chain("tanggal_lahir", true, [Check(IsISO8601, TanggalFormat), Cust(NotInFuture)]),
    Chain("alamat", true, [San(TrimSpace), Check(MinLength(10), AlamatLength)]),
    Chain("penyakit_bawaan", true, [San(TrimSpace), Check(NotEmpty, "Penyakit bawaan tidak boleh kosong")]),
    Chain("kontak_keluarga", true, [San(TrimSpace), Check(Matches(PhoneChars), KontakFormat)])
  ]

  const SortByFields: seq<string> := ["nama", "createdAt"]
  const SortOrders: seq<string> := ["asc", "desc"]

  /** `lansiaFilterValidation` (query). */
  const LansiaFilterRules: seq<Chain> := [
    PageChain,
    LimitChain,
    Chain("search", true, [San(TrimSpace), Check(MinLength(1), "Search query minimal 1 karakter")]),
    Chain("sortBy", true, [Check(IsIn(SortByFields), "sortBy harus nama atau createdAt")]),
    Chain("sortOrder", true, [Check(IsIn(SortOrders), "sortOrder harus asc atau desc")])
  ]

  /** What the create schema guarantees about a resident's fields (the trimmed texts). */
  predicate LansiaFields(nama: string, nik: string, alamat: string, penyakit: string, kontak: string) {
    && |nama| >= 3
    && MatchesPattern(SixteenDigits, nik)
    && |alamat| >= 10
    && penyakit != []
    && MatchesPattern(PhoneChars, kontak)
  }

  /** The client sent `f`, and the request now holds its trimmed text. */
  predicate TrimmedField(body: Fields, out: Fields, f: string) {
    f in body && f in out && out[f] == Trim(body[f])
  }

  /** A birth date the schema accepts: given, ISO 8601, and not after the clock when it parses. */
  predicate BirthDateOk(s: string, env: Builtins) {
    s != [] && env.isISO8601(s) && (env.parseDate(s).Some? ==> env.parseDate(s).value <= env.now)
  }

  lemma CreateShape()
    ensures var R := CreateLansiaRules;
      && DistinctFields(R) && |R| == 6
      && R[0].field == "nama" && RequiredTrimmedChain(R[0]) && |R[0].steps| == 3 && R[0].steps[2].Check?
      && R[0].steps[2].rule == MinLength(3)
      && R[1].field == "nik" && RequiredTrimmedChain(R[1]) && |R[1].steps| == 3 && R[1].steps[2].Check?
      && R[1].steps[2].rule == Matches(SixteenDigits) && R[1].steps[1].message == "NIK wajib diisi"
      && R[2].field == "tanggal_lahir" && !R[2].optional && NoSanitizer(R[2].steps)
      && R[2].steps == [Check(NotEmpty, "Tanggal lahir wajib diisi"), Check(IsISO8601, TanggalFormat), Cust(NotInFuture)]
      && R[3].field == "alamat" && RequiredTrimmedChain(R[3]) && |R[3].steps| == 3 && R[3].steps[2].Check?
      && R[3].steps[2].rule == MinLength(10)
      && R[4].field == "penyakit_bawaan" && RequiredTrimmedChain(R[4]) && |R[4].steps| == 2
      && R[5].field == "kontak_keluarga" && RequiredTrimmedChain(R[5]) && |R[5].steps| == 3 && R[5].steps[2].Check?
      && R[5].steps[2].rule == Matches(PhoneChars)
  {
    var R := CreateLansiaRules;
    forall j | j in {0, 1, 3, 5} ensures NoSanitizer(R[j].steps[1..]) {
      assert R[j].steps[1..] == [R[j].steps[1], R[j].steps[2]];
    }
    assert R[4].steps[1..] == [R[4].steps[1]];
  }

  /**
   * A create request that passes carries, trimmed, a name of at least three
   * characters, a 16-digit NIK, an address of at least ten characters, a
   * non-empty medical history and a phone-like family contact; and, as sent,
   * a birth date that is not in the future.
   */
  lemma CreateLansiaAccepted(body: Fields, env: Builtins)
    requires Validate(CreateLansiaRules, body, env).Ok?
    ensures var out := Validate(CreateLansiaRules, body, env).value;
      && TrimmedField(body, out, "nama") && TrimmedField(body, out, "nik") && TrimmedField(body, out, "alamat")
      && TrimmedField(body, out, "penyakit_bawaan") && TrimmedField(body, out, "kontak_keluarga")
      && LansiaFields(out["nama"], out["nik"], out["alamat"], out["penyakit_bawaan"], out["kontak_keluarga"])
      && "tanggal_lahir" in body && Get(out, "tanggal_lahir") == Some(body["tanggal_lahir"])
      && BirthDateOk(body["tanggal_lahir"], env)
  {
    var R := CreateLansiaRules;
    CreateShape();
    RequiredRuleHolds(R, body, env, 0, 2);
    RequiredRuleHolds(R, body, env, 1, 2);
    RequiredRuleHolds(R, body, env, 3, 2);
    RequiredRuleHolds(R, body, env, 4, 1);
    RequiredRuleHolds(R, body, env, 5, 2);
    BirthDateField(R, body, env, 2);
  }

  /** The birth-date chain (`notEmpty`, `isISO8601`, not in the future) of a passing schema. */
  lemma BirthDateField(chains: seq<Chain>, body: Fields, env: Builtins, j: nat)
    requires DistinctFields(chains) && j < |chains| && RunSchema(chains, body, env).0 == []
    requires !chains[j].optional
    requires chains[j].steps == [Check(NotEmpty, "Tanggal lahir wajib diisi"), Check(IsISO8601, TanggalFormat), Cust(NotInFuture)]
    ensures var f := chains[j].field;
      f in body && Get(RunSchema(chains, body, env).1, f) == Some(body[f]) && BirthDateOk(body[f], env)
  {
    var c := chains[j];
    assert NoSanitizer(c.steps);
    PlainFieldPasses(chains, body, env, j);
    assert RuleHolds(c.steps[0].rule, ToText(Get(body, c.field)), env);
    assert RuleHolds(c.steps[1].rule, ToText(Get(body, c.field)), env);
    assert c.steps[2].Cust? && c.steps[2].custom == NotInFuture;
    assert CustomError(NotInFuture, Get(body, c.field), RequestBefore(chains, j, body, env), env).None?;
  }

  /** A create request whose birth date parses to a moment after the clock is refused with its own message. */
  lemma CreateLansiaRejectsFutureBirth(body: Fields, env: Builtins)
    requires "tanggal_lahir" in body
    requires env.parseDate(body["tanggal_lahir"]).Some? && env.parseDate(body["tanggal_lahir"]).value > env.now
    ensures Validate(CreateLansiaRules, body, env).Err?
    ensures FieldError("tanggal_lahir", FutureBirthMessage) in Validate(CreateLansiaRules, body, env).error.cls.errors
  {
    var R := CreateLansiaRules;
    CreateShape();
    FutureBirthFails(R[2], body, env, RequestBefore(R, 2, body, env));
    FailingCustomReported(R, body, env, 2, 2);
  }

  lemma FutureBirthFails(c: Chain, body: Fields, env: Builtins, before: Fields)
    requires c.field in body && NoSanitizer(c.steps) && |c.steps| == 3 && c.steps[2] == Cust(NotInFuture)
    requires env.parseDate(body[c.field]).Some? && env.parseDate(body[c.field]).value > env.now
    ensures CustomError(NotInFuture, ValueAt(c.steps, 2, Get(body, c.field), env), before, env) == Some(FutureBirthMessage)
  {
    ValueAtWithoutSanitizer(c.steps, 2, Get(body, c.field), env);
  }

  /** A create request without a NIK (absent, or only white space) is refused with the message that asks for it. */
  lemma CreateLansiaNeedsNik(body: Fields, env: Builtins)
    requires Trim(ToText(Get(body, "nik"))) == []
    ensures Validate(CreateLansiaRules, body, env).Err?
    ensures FieldError("nik", "NIK wajib diisi") in Validate(CreateLansiaRules, body, env).error.cls.errors
  {
    CreateShape();
    MissingRequiredReported(CreateLansiaRules, body, env, 1);
  }

  /** A create request whose trimmed NIK is not exactly sixteen digits is refused with the format message. */
  lemma CreateLansiaRejectsNik(body: Fields, env: Builtins)
    requires "nik" in body && !MatchesPattern(SixteenDigits, Trim(body["nik"]))
    ensures Validate(CreateLansiaRules, body, env).Err?
    ensures FieldError("nik", NikFormat) in Validate(CreateLansiaRules, body, env).error.cls.errors
  {
    CreateShape();
    TrimmedRuleReported(CreateLansiaRules, body, env, 1, 2);
  }

  lemma UpdateShape()
    ensures var R := UpdateLansiaRules;
      && DistinctFields(R) && |R| == 6
      && (forall j | j in {0, 1, 3, 4, 5} :: TrimThenChecks(R[j]) && |R[j].steps| == 2 && R[j].steps[1].Check?)
      && R[0].field == "nama" && R[0].steps[1].rule == MinLength(3)
      && R[1].field == "nik" && R[1].steps[1].rule == Matches(SixteenDigits)
      && R[2].field == "tanggal_lahir" && NoSanitizer(R[2].steps)
      && R[2].steps == [Check(IsISO8601, TanggalFormat), Cust(NotInFuture)]
      && R[3].field == "alamat" && R[3].steps[1].rule == MinLength(10)
      && R[4].field == "penyakit_bawaan" && R[4].steps[1].rule == NotEmpty
      && R[5].field == "kontak_keluarga" && R[5].steps[1].rule == Matches(PhoneChars)
  {
    var R := UpdateLansiaRules;
    forall j | j in {0, 1, 3, 4, 5} ensures NoSanitizer(R[j].steps[1..]) {
      assert R[j].steps[1..] == [R[j].steps[1]];
    }
  }

  /** An update that passes carries each field it mentions, trimmed, with the create schema's checks (the birth date as sent). */
  lemma UpdateLansiaAccepted(body: Fields, env: Builtins)
    requires Validate(UpdateLansiaRules, body, env).Ok?
    ensures var out := Validate(UpdateLansiaRules, body, env).value;
      && ("nama" in body ==> TrimmedField(body, out, "nama") && |out["nama"]| >= 3)
      && ("nik" in body ==> TrimmedField(body, out, "nik") && MatchesPattern(SixteenDigits, out["nik"]))
      && ("alamat" in body ==> TrimmedField(body, out, "alamat") && |out["alamat"]| >= 10)
      && ("penyakit_bawaan" in body ==> TrimmedField(body, out, "penyakit_bawaan") && out["penyakit_bawaan"] != [])
      && ("kontak_keluarga" in body ==>
        TrimmedField(body, out, "kontak_keluarga") && MatchesPattern(PhoneChars, out["kontak_keluarga"]))
      && ("tanggal_lahir" in body ==>
        Get(out, "tanggal_lahir") == Some(body["tanggal_lahir"]) && env.isISO8601(body["tanggal_lahir"])
        && (env.parseDate(body["tanggal_lahir"]).Some? ==> env.parseDate(body["tanggal_lahir"]).value <= env.now))
  {
    var R := UpdateLansiaRules;
    UpdateShape();
    if "nama" in body { OptionalRuleHolds(R, body, env, 0, 1); }
    if "nik" in body { OptionalRuleHolds(R, body, env, 1, 1); }
    if "alamat" in body { OptionalRuleHolds(R, body, env, 3, 1); }
    if "penyakit_bawaan" in body { OptionalRuleHolds(R, body, env, 4, 1); }
    if "kontak_keluarga" in body { OptionalRuleHolds(R, body, env, 5, 1); }
    if "tanggal_lahir" in body { OptionalBirthDateField(R, body, env, 2); }
  }

  /** The optional birth-date chain (`isISO8601`, not in the future) of a passing schema, when the date was sent. */
  lemma OptionalBirthDateField(chains: seq<Chain>, body: Fields, env: Builtins, j: nat)
    requires DistinctFields(chains) && j < |chains| && RunSchema(chains, body, env).0 == []
    requires chains[j].field in body
    requires chains[j].steps == [Check(IsISO8601, TanggalFormat), Cust(NotInFuture)]
    ensures var f := chains[j].field;
      && Get(RunSchema(chains, body, env).1, f) == Some(body[f]) && env.isISO8601(body[f])
      && (env.parseDate(body[f]).Some? ==> env.parseDate(body[f]).value <= env.now)
  {
    var c := chains[j];
    assert NoSanitizer(c.steps);
    PlainFieldPasses(chains, body, env, j);
    assert RuleHolds(c.steps[0].rule, ToText(Get(body, c.field)), env);
    assert c.steps[1].Cust? && c.steps[1].custom == NotInFuture;
    assert CustomError(NotInFuture, Get(body, c.field), RequestBefore(chains, j, body, env), env).None?;
  }

  lemma FilterShape()
    ensures var R := LansiaFilterRules;
      && DistinctFields(R) && |R| == 5 && R[0] == PageChain && R[1] == LimitChain
      && R[2].field == "search" && TrimThenChecks(R[2]) && |R[2].steps| == 2 && R[2].steps[1].Check?
      && R[2].steps[1].rule == MinLength(1)
      && R[3] == Chain("sortBy", true, [Check(IsIn(SortByFields), "sortBy harus nama atau createdAt")])
      && R[4] == Chain("sortOrder", true, [Check(IsIn(SortOrders), "sortOrder harus asc atau desc")])
  {
    var R := LansiaFilterRules;
    assert R[2].steps[1..] == [R[2].steps[1]];
  }

  /**
   * A list query that passes: paging as the shared chains promise, a search
   * text that is not empty once trimmed, a sort field among `nama` and
   * `createdAt`, and a sort order among `asc` and `desc`.
   */
  lemma LansiaFilterAccepted(query: Fields, env: Builtins)
    requires Validate(LansiaFilterRules, query, env).Ok?
    ensures var out := Validate(LansiaFilterRules, query, env).value;
      && ("page" in query ==> PageText(query["page"]))
      && ("limit" in query ==> LimitText(query["limit"]))
      && ("search" in query ==> "search" in out && out["search"] == Trim(query["search"]) && out["search"] != [])
      && ("sortBy" in query ==> Get(out, "sortBy") == Some(query["sortBy"]) && query["sortBy"] in SortByFields)
      && ("sortOrder" in query ==> Get(out, "sortOrder") == Some(query["sortOrder"]) && query["sortOrder"] in SortOrders)
  {
    var R := LansiaFilterRules;
    FilterShape();
    PagingFields(R, query, env, 0, 1);
    if "search" in query { OptionalRuleHolds(R, query, env, 2, 1); }
    if "sortBy" in query { OneOfField(R, query, env, 3); }
    if "sortOrder" in query { OneOfField(R, query, env, 4); }
  }

  /** A field checked only by `isIn` keeps the value the client sent, which is one of the options. */
  lemma OneOfField(chains: seq<Chain>, query: Fields, env: Builtins, j: nat)
    requires DistinctFields(chains) && j < |chains| && RunSchema(chains, query, env).0 == []
    requires chains[j].field in query && |chains[j].steps| == 1 && chains[j].steps[0].Check? && chains[j].steps[0].rule.IsIn?
    ensures var f := chains[j].field;
      Get(RunSchema(chains, query, env).1, f) == Some(query[f]) && query[f] in chains[j].steps[0].rule.options
  {
    assert NoSanitizer(chains[j].steps);
    PlainFieldPasses(chains, query, env, j);
  }
}
