/**
 * The request schema of the checkup report: both dates are required, the end
 * may not precede the start, and the range may span at most 365 days.
 */
module LaporanValidation {
  import opened Wrappers
  import opened JsString
  import opened Errors
  import opened Validator

  const StartDateRequired := "startDate wajib diisi"
  const EndDateRequired := "endDate wajib diisi"

  /** `reportFilterValidation` (query). */
  const ReportFilterRules: seq<Chain> := [
    Chain("startDate", false,
      [Check(NotEmpty, StartDateRequired), Check(IsISO8601, "Format startDate tidak valid (gunakan ISO 8601)")]),
    Chain("endDate", false,
      [Check(NotEmpty, EndDateRequired), Check(IsISO8601, "Format endDate tidak valid (gunakan ISO 8601)"), Cust(ReportRange)]),
    Chain("lansiaId", true, [San(TrimSpace), Check(IsUUID, "Format ID lansia tidak valid")])
  ]

  lemma ReportShape()
    ensures var R := ReportFilterRules;
      && DistinctFields(R) && |R| == 3
      && R[0].field == "startDate" && !R[0].optional && NoSanitizer(R[0].steps) && |R[0].steps| == 2
      && R[0].steps[0] == Check(NotEmpty, StartDateRequired) && R[0].steps[1].Check? && R[0].steps[1].rule == IsISO8601
      && R[1].field == "endDate" && !R[1].optional && NoSanitizer(R[1].steps) && |R[1].steps| == 3
      && R[1].steps[0] == Check(NotEmpty, EndDateRequired) && R[1].steps[1].Check? && R[1].steps[1].rule == IsISO8601
      && R[1].steps[2] == Cust(ReportRange)
      && R[2].field == "lansiaId" && R[2].optional && TrimThenChecks(R[2]) && |R[2].steps| == 2
      && R[2].steps[1].Check? && R[2].steps[1].rule == IsUUID
  {
    var R := ReportFilterRules;
    assert R[2].steps[1..] == [R[2].steps[1]];
  }

  /** Text that the date checks of the report accept. */
  predicate DateText(s: string, env: Builtins) {
    s != [] && env.isISO8601(s)
  }

  /**
   * A report query that passes holds both dates, each accepted by the ISO 8601
   * check and left as sent; when both parse, the end is not before the start
   * and at most 365 days after it.
   */
  lemma ReportAccepted(query: Fields, env: Builtins)
    requires Validate(ReportFilterRules, query, env).Ok?
    ensures var out := Validate(ReportFilterRules, query, env).value;
      && "startDate" in query && DateText(query["startDate"], env)
      && "endDate" in query && DateText(query["endDate"], env)
      && Get(out, "startDate") == Get(query, "startDate") && Get(out, "endDate") == Get(query, "endDate")
      && var start := env.parseDate(query["startDate"]);
      var end := env.parseDate(query["endDate"]);
      (start.Some? && end.Some? ==> start.value <= end.value <= start.value + MaxReportDays * DayMillis)
  {
    var R := ReportFilterRules;
    ReportShape();
    DateFields(R, query, env);
  }

  /** The two date chains of a passing schema, stated generically over where they sit in it. */
  lemma DateFields(chains: seq<Chain>, query: Fields, env: Builtins)
    requires DistinctFields(chains) && |chains| >= 2 && RunSchema(chains, query, env).0 == []
    requires chains[0].field == "startDate" && !chains[0].optional && NoSanitizer(chains[0].steps) && |chains[0].steps| == 2
    requires chains[0].steps[0].Check? && chains[0].steps[0].rule == NotEmpty
    requires chains[0].steps[1].Check? && chains[0].steps[1].rule == IsISO8601
    requires chains[1].field == "endDate" && !chains[1].optional && NoSanitizer(chains[1].steps) && |chains[1].steps| == 3
    requires chains[1].steps[0].Check? && chains[1].steps[0].rule == NotEmpty
    requires chains[1].steps[1].Check? && chains[1].steps[1].rule == IsISO8601
    requires chains[1].steps[2] == Cust(ReportRange)
    ensures var out := RunSchema(chains, query, env).1;
      && "startDate" in query && DateText(query["startDate"], env)
      && "endDate" in query && DateText(query["endDate"], env)
      && Get(out, "startDate") == Get(query, "startDate") && Get(out, "endDate") == Get(query, "endDate")
      && var start := env.parseDate(query["startDate"]);
      var end := env.parseDate(query["endDate"]);
      (start.Some? && end.Some? ==> start.value <= end.value <= start.value + MaxReportDays * DayMillis)
  {
    PlainFieldPasses(chains, query, env, 0);
    assert RuleHolds(chains[0].steps[0].rule, ToText(Get(query, "startDate")), env);
    assert RuleHolds(chains[0].steps[1].rule, ToText(Get(query, "startDate")), env);
    PlainFieldPasses(chains, query, env, 1);
    assert RuleHolds(chains[1].steps[0].rule, ToText(Get(query, "endDate")), env);
    assert RuleHolds(chains[1].steps[1].rule, ToText(Get(query, "endDate")), env);
    UnsanitizedPrefixKeeps(chains, 1, query, env);
    var v := query["endDate"];
    assert CustomError(ReportRange, Some(v), query, env).None?;
    if env.parseDate(query["startDate"]).Some? && env.parseDate(v).Some? {
      ReportRangeBoundary(v, query, env);
    }
  }

  /** A report query without a start date (or with an empty one) is refused with the message that asks for it. */
  lemma ReportNeedsStartDate(query: Fields, env: Builtins)
    requires !Truthy(Get(query, "startDate"))
    ensures Validate(ReportFilterRules, query, env).Err?
    ensures FieldError("startDate", StartDateRequired) in Validate(ReportFilterRules, query, env).error.cls.errors
  {
    var R := ReportFilterRules;
    ReportShape();
    assert ValueAt(R[0].steps, 0, Get(query, "startDate"), env) == Get(query, "startDate");
    FailingFieldReported(R, query, env, 0, 0);
  }

  /** The same for the end date. */
  lemma ReportNeedsEndDate(query: Fields, env: Builtins)
    requires !Truthy(Get(query, "endDate"))
    ensures Validate(ReportFilterRules, query, env).Err?
    ensures FieldError("endDate", EndDateRequired) in Validate(ReportFilterRules, query, env).error.cls.errors
  {
    var R := ReportFilterRules;
    ReportShape();
    assert ValueAt(R[1].steps, 0, Get(query, "endDate"), env) == Get(query, "endDate");
    FailingFieldReported(R, query, env, 1, 0);
  }

  /**
   * With both dates given and parsed, the range check reports reversed dates,
   * and a span of more than 365 days, with their own messages.
   */
  lemma ReportRejectsRange(query: Fields, env: Builtins)
    requires "startDate" in query && "endDate" in query && query["startDate"] != [] && query["endDate"] != []
    requires env.parseDate(query["startDate"]).Some? && env.parseDate(query["endDate"]).Some?
    ensures var start := env.parseDate(query["startDate"]).value;
      var end := env.parseDate(query["endDate"]).value;
      && (end < start ==> (Validate(ReportFilterRules, query, env).Err?
        && FieldError("endDate", EndBeforeStartMessage) in Validate(ReportFilterRules, query, env).error.cls.errors))
      && (end > start + MaxReportDays * DayMillis ==> (Validate(ReportFilterRules, query, env).Err?
        && FieldError("endDate", RangeTooLongMessage) in Validate(ReportFilterRules, query, env).error.cls.errors))
  {
    var R := ReportFilterRules;
    ReportShape();
    var v := query["endDate"];
    var start := env.parseDate(query["startDate"]).value;
    var end := env.parseDate(v).value;
    if end < start || end > start + MaxReportDays * DayMillis {
      ReportRangeBoundary(v, query, env);
      UnsanitizedPrefixKeeps(R, 1, query, env);
      ValueAtWithoutSanitizer(R[1].steps, 2, Some(v), env);
      FailingCustomReported(R, query, env, 1, 2);
    }
  }

  /**
   * For two well-formed dates that parse (and a valid or absent lansia id),
   * the schema accepts exactly the ranges whose end is not before the start
   * and at most 365 days after it; a span of exactly 365 days passes.
   */
  lemma ReportRangeDecides(query: Fields, env: Builtins)
    requires "startDate" in query && "endDate" in query
    requires DateText(query["startDate"], env) && DateText(query["endDate"], env)
    requires env.parseDate(query["startDate"]).Some? && env.parseDate(query["endDate"]).Some?
    requires "lansiaId" in query ==> env.isUUID(Trim(query["lansiaId"]))
    ensures var start := env.parseDate(query["startDate"]).value;
      var end := env.parseDate(query["endDate"]).value;
      Validate(ReportFilterRules, query, env).Ok? <==> start <= end <= start + MaxReportDays * DayMillis
  {
    var R := ReportFilterRules;
    ReportShape();
    var start := env.parseDate(query["startDate"]).value;
    var end := env.parseDate(query["endDate"]).value;
    if start <= end <= start + MaxReportDays * DayMillis {
      ReportChainsPass(query, env);
      ChainsPassSchemaPasses(R, query, env);
    } else {
      ReportRejectsRange(query, env);
    }
  }

  /** Each chain of the report schema passes on such a query. */
  lemma ReportChainsPass(query: Fields, env: Builtins)
    requires "startDate" in query && "endDate" in query
    requires DateText(query["startDate"], env) && DateText(query["endDate"], env)
    requires env.parseDate(query["startDate"]).Some? && env.parseDate(query["endDate"]).Some?
    requires "lansiaId" in query ==> env.isUUID(Trim(query["lansiaId"]))
    requires var start := env.parseDate(query["startDate"]).value;
      var end := env.parseDate(query["endDate"]).value;
      start <= end <= start + MaxReportDays * DayMillis
    ensures var R := ReportFilterRules;
      forall j | 0 <= j < |R| :: RunChain(R[j], RequestBefore(R, j, query, env), env).0 == []
  {
    var R := ReportFilterRules;
    ReportShape();
    UnsanitizedPrefixKeeps(R, 1, query, env);
    UnsanitizedPrefixKeeps(R, 2, query, env);
    StartDateChainPasses(R[0], query, env);
    EndDateChainPasses(R[1], query, env);
    LansiaIdChainPasses(R[2], query, env);
  }

  lemma StartDateChainPasses(c: Chain, query: Fields, env: Builtins)
    requires c == ReportFilterRules[0]
    requires "startDate" in query && DateText(query["startDate"], env)
    ensures RunChain(c, query, env).0 == []
  {
    ReportShape();
    PlainChainPasses(c, query, env);
  }

  lemma EndDateChainPasses(c: Chain, query: Fields, env: Builtins)
    requires c == ReportFilterRules[1]
    requires "startDate" in query && "endDate" in query
    requires DateText(query["startDate"], env) && DateText(query["endDate"], env)
    requires env.parseDate(query["startDate"]).Some? && env.parseDate(query["endDate"]).Some?
    requires var start := env.parseDate(query["startDate"]).value;
      var end := env.parseDate(query["endDate"]).value;
      start <= end <= start + MaxReportDays * DayMillis
    ensures RunChain(c, query, env).0 == []
  {
    ReportShape();
    ReportRangeBoundary(query["endDate"], query, env);
    PlainChainPasses(c, query, env);
  }

  lemma LansiaIdChainPasses(c: Chain, query: Fields, env: Builtins)
    requires c == ReportFilterRules[2]
    requires "lansiaId" in query ==> env.isUUID(Trim(query["lansiaId"]))
    ensures RunChain(c, query, env).0 == []
  {
    ReportShape();
    if "lansiaId" in query {
      TrimmedChainPasses(c, query, env);
    } else {
      ChainPasses(c, query, env);
    }
  }
}
