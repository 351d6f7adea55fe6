/**
 * The request schemas of the checkup (pemeriksaan) endpoints, and what a
 * request that passes them guarantees to the services: in particular that
 * the dashboard's readers accept every measurement that was let in.
 */
module PemeriksaanValidation {
  import opened Wrappers
  import opened JsString
  import opened JsNumber
  import opened Errors
  import opened Validator
  import opened Laporan
  import opened PaginationValidation

  const TekananDarahFormat := "Format tekanan darah harus seperti: 120/80"
  const BeratBadanFormat := "Berat badan harus berupa angka"
  const GulaDarahFormat := "Gula darah harus berupa angka"
  const KolesterolFormat := "Kolesterol harus berupa angka"
  const LansiaIdFormat := "Format ID lansia tidak valid"

  /** `createPemeriksaanValidation` (body). */
  const CreatePemeriksaanRules: seq<Chain> := [
    Chain("lansiaId", false, [San(TrimSpace), Check(NotEmpty, "ID lansia wajib diisi"), Check(IsUUID, LansiaIdFormat)]),
    Chain("tekanan_darah", false,
      [San(TrimSpace), Check(NotEmpty, "Tekanan darah wajib diisi"), Check(Matches(DigitsSlashDigits), TekananDarahFormat)]),
    Chain("berat_badan", false,
      [San(TrimSpace), Check(NotEmpty, "Berat badan wajib diisi"), Check(Matches(DecimalNumber), BeratBadanFormat)]),
    Chain("gula_darah", false,
      [San(TrimSpace), Check(NotEmpty, "Gula darah wajib diisi"), Check(Matches(Digits), GulaDarahFormat)]),
    Chain("kolesterol", false,
      [San(TrimSpace), Check(NotEmpty, "Kolesterol wajib diisi"), Check(Matches(Digits), KolesterolFormat)]),
    Chain("keluhan", true, [San(TrimSpace)])
  ]

  /** `updatePemeriksaanValidation` (body): every field optional, the same formats when present. */
  const UpdatePemeriksaanRules: seq<Chain> := [
    Chain("tekanan_darah", true, [San(TrimSpace), Check(Matches(DigitsSlashDigits), TekananDarahFormat)]),
    Chain("berat_badan", true, [San(TrimSpace), Check(Matches(DecimalNumber), BeratBadanFormat)]),
    Chain("gula_darah", true, [San(TrimSpace), Check(Matches(Digits), GulaDarahFormat)]),
    Chain("kolesterol", true, [San(TrimSpace), Check(Matches(Digits), KolesterolFormat)]),
    Chain("keluhan", true, [San(TrimSpace)])
  ]

  /** `pemeriksaanFilterValidation` (query). */
  const PemeriksaanFilterRules: seq<Chain> := [
    PageChain,
    LimitChain,
    Chain("lansiaId", true, [San(TrimSpace), Check(IsUUID, LansiaIdFormat)]),
    Chain("startDate", true, [Check(IsISO8601, "Format startDate tidak valid (gunakan ISO 8601)")]),
    Chain("endDate", true, [Check(IsISO8601, "Format endDate tidak valid (gunakan ISO 8601)"), Cust(EndNotBeforeStart)])
  ]

  /** A blood-pressure text the dashboard reads as two non-negative numbers. */
  predicate ReadableReading(s: string) {
    var bp := ParseTekananDarah(s);
    bp.Some? && bp.value.systolic >= 0 && bp.value.diastolic >= 0
  }

  /** A glucose or cholesterol text `parseInt` reads as a non-negative number. */
  predicate ReadableNumber(s: string) {
    var n := ParseInt(s);
    n.Some? && n.value >= 0
  }

  /** Every blood-pressure text the format check lets through is read by `parseTekananDarah`, as the two numbers. */
  lemma AcceptedReadingParses(s: string)
    requires MatchesPattern(DigitsSlashDigits, s)
    ensures ReadableReading(s)
  {
    var a, b := DigitsSlashDigitsSplit(s);
    ParseTekananDarahOfDigits(a, b);
  }

  lemma AcceptedNumberParses(s: string)
    requires MatchesPattern(Digits, s)
    ensures ReadableNumber(s)
  {
    DigitsParse(s);
  }

  /** The create schema: distinct fields, five required trimmed fields, and the format check of each. */
  lemma CreateShape()
    ensures var R := CreatePemeriksaanRules;
      && DistinctFields(R) && |R| == 6
      && (forall j | 0 <= j < 5 :: RequiredTrimmedChain(R[j]) && |R[j].steps| == 3 && R[j].steps[2].Check?)
      && R[0].field == "lansiaId" && R[0].steps[2].rule == IsUUID
      && R[1].field == "tekanan_darah" && R[1].steps[2].rule == Matches(DigitsSlashDigits)
      && R[2].field == "berat_badan" && R[2].steps[2].rule == Matches(DecimalNumber)
      && R[3].field == "gula_darah" && R[3].steps[2].rule == Matches(Digits)
      && R[4].field == "kolesterol" && R[4].steps[2].rule == Matches(Digits)
  {
    var R := CreatePemeriksaanRules;
    forall j | 0 <= j < 5 ensures NoSanitizer(R[j].steps[1..]) {
      assert R[j].steps[1..] == [R[j].steps[1], R[j].steps[2]];
    }
  }

  /**
   * A create request that passes holds, trimmed, a lansia id the UUID check
   * accepted, a weight in decimal notation, and a blood pressure, glucose
   * and cholesterol that the dashboard's readers all accept.
   */
  lemma CreateAccepted(body: Fields, env: Builtins)
    requires Validate(CreatePemeriksaanRules, body, env).Ok?
    ensures var out := Validate(CreatePemeriksaanRules, body, env).value;
      && "lansiaId" in out && env.isUUID(out["lansiaId"])
      && "tekanan_darah" in out && ReadableReading(out["tekanan_darah"])
      && "berat_badan" in out && MatchesPattern(DecimalNumber, out["berat_badan"])
      && "gula_darah" in out && ReadableNumber(out["gula_darah"])
      && "kolesterol" in out && ReadableNumber(out["kolesterol"])
  {
    var R := CreatePemeriksaanRules;
    CreateShape();
    var out := Validate(R, body, env).value;
    RequiredRuleHolds(R, body, env, 0, 2);
    RequiredRuleHolds(R, body, env, 1, 2);
    AcceptedReadingParses(out["tekanan_darah"]);
    RequiredRuleHolds(R, body, env, 2, 2);
    RequiredRuleHolds(R, body, env, 3, 2);
    AcceptedNumberParses(out["gula_darah"]);
    RequiredRuleHolds(R, body, env, 4, 2);
    AcceptedNumberParses(out["kolesterol"]);
  }

  /** A create request without a blood pressure (absent, or only white space) is refused with the message that asks for it. */
  lemma CreateNeedsTekananDarah(body: Fields, env: Builtins)
    requires Trim(ToText(Get(body, "tekanan_darah"))) == []
    ensures Validate(CreatePemeriksaanRules, body, env).Err?
    ensures FieldError("tekanan_darah", "Tekanan darah wajib diisi") in Validate(CreatePemeriksaanRules, body, env).error.cls.errors
  {
    CreateShape();
    MissingRequiredReported(CreatePemeriksaanRules, body, env, 1);
  }

  /** A create request whose blood pressure is not `digits/digits` is refused with the format message. */
  lemma CreateRejectsReading(body: Fields, env: Builtins)
    requires "tekanan_darah" in body && !MatchesPattern(DigitsSlashDigits, Trim(body["tekanan_darah"]))
    ensures Validate(CreatePemeriksaanRules, body, env).Err?
    ensures FieldError("tekanan_darah", TekananDarahFormat) in Validate(CreatePemeriksaanRules, body, env).error.cls.errors
  {
    CreateShape();
    TrimmedRuleReported(CreatePemeriksaanRules, body, env, 1, 2);
  }

  /** The update schema: distinct fields, each measurement trimmed and then checked for its format. */
  lemma UpdateShape()
    ensures var R := UpdatePemeriksaanRules;
      && DistinctFields(R) && |R| == 5
      && (forall j | 0 <= j < 4 :: TrimThenChecks(R[j]) && |R[j].steps| == 2 && R[j].steps[1].Check?)
      && R[0].field == "tekanan_darah" && R[0].steps[1].rule == Matches(DigitsSlashDigits)
      && R[1].field == "berat_badan" && R[1].steps[1].rule == Matches(DecimalNumber)
      && R[2].field == "gula_darah" && R[2].steps[1].rule == Matches(Digits)
      && R[3].field == "kolesterol" && R[3].steps[1].rule == Matches(Digits)
  {
    var R := UpdatePemeriksaanRules;
    forall j | 0 <= j < 4 ensures NoSanitizer(R[j].steps[1..]) {
      assert R[j].steps[1..] == [R[j].steps[1]];
    }
  }

  /** An update that passes carries each measurement it mentions in a form the dashboard reads. */
  lemma UpdateAccepted(body: Fields, env: Builtins)
    requires Validate(UpdatePemeriksaanRules, body, env).Ok?
    ensures var out := Validate(UpdatePemeriksaanRules, body, env).value;
      && ("tekanan_darah" in body ==> "tekanan_darah" in out && ReadableReading(out["tekanan_darah"]))
      && ("berat_badan" in body ==> "berat_badan" in out && MatchesPattern(DecimalNumber, out["berat_badan"]))
      && ("gula_darah" in body ==> "gula_darah" in out && ReadableNumber(out["gula_darah"]))
      && ("kolesterol" in body ==> "kolesterol" in out && ReadableNumber(out["kolesterol"]))
  {
    var R := UpdatePemeriksaanRules;
    var out := Validate(R, body, env).value;
    UpdateShape();
    if "tekanan_darah" in body {
      OptionalRuleHolds(R, body, env, 0, 1);
      AcceptedReadingParses(out["tekanan_darah"]);
    }
    if "berat_badan" in body {
      OptionalRuleHolds(R, body, env, 1, 1);
    }
    if "gula_darah" in body {
      OptionalRuleHolds(R, body, env, 2, 1);
      AcceptedNumberParses(out["gula_darah"]);
    }
    if "kolesterol" in body {
      OptionalRuleHolds(R, body, env, 3, 1);
      AcceptedNumberParses(out["kolesterol"]);
    }
  }

  /** A query that passes has a page of at least 1 and a limit between 1 and 100 wherever they are given. */
  lemma FilterPaging(query: Fields, env: Builtins)
    requires Validate(PemeriksaanFilterRules, query, env).Ok?
    ensures var out := Validate(PemeriksaanFilterRules, query, env).value;
      && ("page" in query ==> "page" in out && ParseInt(out["page"]).Some? && ParseInt(out["page"]).value >= 1)
      && ("limit" in query ==> "limit" in out && ParseInt(out["limit"]).Some? && 1 <= ParseInt(out["limit"]).value <= 100)
  {
    var R := PemeriksaanFilterRules;
    assert DistinctFields(R);
    PagingFields(R, query, env, 0, 1);
  }

  /** Where the two date chains of the filter sit, and what they hold. */
  lemma FilterShape()
    ensures var R := PemeriksaanFilterRules;
      && DistinctFields(R) && |R| == 5
      && R[4].field == "endDate" && |R[4].steps| == 2 && R[4].steps[0].Check? && R[4].steps[1] == Cust(EndNotBeforeStart)
      && forall i | 0 <= i < 4 :: R[i].field != "startDate" || NoSanitizer(R[i].steps)
  {
  }

  /** When both dates are given and parse, a passing query has `startDate <= endDate`; equal dates pass the check. */
  lemma FilterDateOrder(query: Fields, env: Builtins)
    requires Validate(PemeriksaanFilterRules, query, env).Ok?
    requires "startDate" in query && "endDate" in query && query["startDate"] != [] && query["endDate"] != []
    requires env.parseDate(query["startDate"]).Some? && env.parseDate(query["endDate"]).Some?
    ensures env.parseDate(query["startDate"]).value <= env.parseDate(query["endDate"]).value
  {
    FilterShape();
    EndDateOrder(PemeriksaanFilterRules, 4, query, env);
  }

  /** The converse: both dates given and parsed, an end before the start is reported with the order message. */
  lemma FilterRejectsReversed(query: Fields, env: Builtins)
    requires "startDate" in query && "endDate" in query && query["startDate"] != [] && query["endDate"] != []
    requires env.parseDate(query["startDate"]).Some? && env.parseDate(query["endDate"]).Some?
    ensures env.parseDate(query["endDate"]).value < env.parseDate(query["startDate"]).value ==>
      (Validate(PemeriksaanFilterRules, query, env).Err?
       && FieldError("endDate", EndBeforeStartMessage) in Validate(PemeriksaanFilterRules, query, env).error.cls.errors)
  {
    var R := PemeriksaanFilterRules;
    if env.parseDate(query["endDate"]).value < env.parseDate(query["startDate"]).value {
      FilterShape();
      FieldKeptBefore(R, 4, query, env, "startDate");
      assert ValueAt(R[4].steps, 1, Get(query, "endDate"), env) == Get(query, "endDate");
      FailingCustomReported(R, query, env, 4, 1);
    }
  }

  /** The same, for an `endDate` chain at any position behind every chain that could rewrite `startDate`. */
  lemma EndDateOrder(chains: seq<Chain>, j: nat, query: Fields, env: Builtins)
    requires DistinctFields(chains) && j < |chains| && RunSchema(chains, query, env).0 == []
    requires chains[j].field == "endDate" && |chains[j].steps| == 2
    requires chains[j].steps[0].Check? && chains[j].steps[1] == Cust(EndNotBeforeStart)
    requires forall i | 0 <= i < j :: chains[i].field != "startDate" || NoSanitizer(chains[i].steps)
    requires "startDate" in query && "endDate" in query && query["startDate"] != [] && query["endDate"] != []
    requires env.parseDate(query["startDate"]).Some? && env.parseDate(query["endDate"]).Some?
    ensures env.parseDate(query["startDate"]).value <= env.parseDate(query["endDate"]).value
  {
    var end := Some(query["endDate"]);
    var before := RequestBefore(chains, j, query, env);
    PassingField(chains, query, env, j);
    assert ValueAt(chains[j].steps, 1, end, env) == end;
    assert CustomError(EndNotBeforeStart, end, before, env).None?;
    FieldKeptBefore(chains, j, query, env, "startDate");
  }
}
