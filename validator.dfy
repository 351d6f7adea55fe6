/**
 * The part of express-validator the request schemas use: a schema is a list
 * of chains, one per field, run in order; a chain is a list of sanitizers and
 * validators run in order over the field's value. Every failing validator
 * adds one `{field, message}` entry (no chain stops early), a sanitizer
 * replaces the value, and the sanitized value is written back into the
 * request before the next chain runs. The `validate` middleware then turns a
 * non-empty error list into `ValidationError('Validasi gagal', errors)`.
 */
module Validator {
  import opened Wrappers
  import opened JsString
  import opened JsNumber
  import opened Errors

  /** The fields of one request location (`req.body` or `req.query`); a missing key is `undefined`. */
  type Fields = map<string, string>

  /**
   * The validators and sanitizers this model takes from outside: the
   * validator.js predicates `isEmail`, `isUUID`, `isISO8601`, the
   * `normalizeEmail` sanitizer, `new Date(text)` (`None` is an Invalid Date,
   * whose time value is NaN) and the clock (`new Date()`).
   */
  datatype Builtins = Builtins(
    isEmail: string -> bool,
    isUUID: string -> bool,
    isISO8601: string -> bool,
    normalizeEmail: string -> string,
    parseDate: string -> Option<int>,
    now: int)

  /** The regular expressions the schemas match against (each anchored `^…$`, JavaScript semantics). */
  datatype Pattern =
    | Digits             // ^\d+$
    | DigitsSlashDigits  // ^\d+\/\d+$
    | DecimalNumber      // ^\d+(\.\d+)?$
    | SixteenDigits      // ^\d{16}$
    | PhoneChars         // ^[0-9+\-\s()]+$
    | LetterAndDigit     // ^(?=.*[A-Za-z])(?=.*\d)

  /** A non-empty run of decimal digits. */
  predicate DigitRun(s: string) {
    s != [] && AllDigits(s)
  }

  /** The text before the first line terminator: what a regular-expression `.*` can reach from the start. */
  function FirstLine(s: string): (r: string)
    ensures |r| <= |s| && r == s[..|r|]
    ensures forall i | 0 <= i < |r| :: !IsLineTerminator(r[i])
    ensures |r| == |s| || IsLineTerminator(s[|r|])
  {
    if s == [] || IsLineTerminator(s[0]) then [] else [s[0]] + FirstLine(s[1..])
  }

  predicate IsPhoneChar(c: char) {
    IsDigit(c) || c == '+' || c == '-' || IsWhitespace(c) || c == '(' || c == ')'
  }

  predicate MatchesPattern(p: Pattern, s: string) {
    match p
    case Digits => DigitRun(s)
    case DigitsSlashDigits =>
      exists i | 0 <= i < |s| :: s[i] == '/' && DigitRun(s[..i]) && DigitRun(s[i + 1..])
    case DecimalNumber =>
      DigitRun(s) || exists i | 0 <= i < |s| :: s[i] == '.' && DigitRun(s[..i]) && DigitRun(s[i + 1..])
    case SixteenDigits => |s| == 16 && AllDigits(s)
    case PhoneChars => s != [] && forall i | 0 <= i < |s| :: IsPhoneChar(s[i])
    case LetterAndDigit =>
      var line := FirstLine(s);
      (exists i | 0 <= i < |line| :: IsAsciiLetter(line[i])) && (exists i | 0 <= i < |line| :: IsDigit(line[i]))
  }

  /** validator.js `isInt` text: an optional sign and decimal digits (leading zeros allowed). */
  predicate IsIntText(s: string) {
    s != [] && (if s[0] == '-' || s[0] == '+' then DigitRun(s[1..]) else AllDigits(s))
  }

  /** The number such a text denotes (what `Number(text)` gives when compared with a bound). */
  function IntTextValue(s: string): int
    requires IsIntText(s)
  {
    if s[0] == '-' then 0 - DecimalValue(s[1..])
    else if s[0] == '+' then DecimalValue(s[1..])
    else DecimalValue(s)
  }

  /** The standard validators, each a predicate over the value's string form. */
  datatype Rule =
    | NotEmpty
    | MinLength(min: nat)
    | Matches(pattern: Pattern)
    | IsInt(low: Option<int>, high: Option<int>)
    | IsIn(options: seq<string>)
    | IsEmail
    | IsUUID
    | IsISO8601

  predicate RuleHolds(rule: Rule, s: string, env: Builtins) {
    match rule
    case NotEmpty => s != []
    case MinLength(min) => |s| >= min
    case Matches(p) => MatchesPattern(p, s)
    case IsInt(low, high) =>
      IsIntText(s) && (low.Some? ==> IntTextValue(s) >= low.value) && (high.Some? ==> IntTextValue(s) <= high.value)
    case IsIn(options) => s in options
    case IsEmail => env.isEmail(s)
    case IsUUID => env.isUUID(s)
    case IsISO8601 => env.isISO8601(s)
  }

  /** The `.custom(...)` validators of the schemas; each throws its own message. */
  datatype Custom =
    | NotInFuture        // a birth date may not lie after the clock
    | EndNotBeforeStart  // `endDate` is not earlier than the request's `startDate`
    | ReportRange        // ... and at most 365 days after it

  const FutureBirthMessage := "Tanggal lahir tidak boleh di masa depan"
  const EndBeforeStartMessage := "endDate tidak boleh lebih awal dari startDate"
  const RangeTooLongMessage := "Rentang tanggal maksimal 1 tahun"
  const DayMillis: int := 1000 * 60 * 60 * 24
  const MaxReportDays := 365

  /** `Math.ceil(diffTime / msPerDay)` for a non-negative difference. */
  function SpanDays(diff: nat): (days: nat)
    ensures (days - 1) * DayMillis < diff <= days * DayMillis || (diff == 0 && days == 0)
  {
    var q := (diff + DayMillis - 1) / DayMillis;
    assert q * DayMillis <= diff + DayMillis - 1 < (q + 1) * DayMillis;
    q
  }

  /**
   * What a custom validator throws for the value `v` (`None` when it returns
   * true). A date that does not parse compares false with everything, so it
   * never throws.
   */
  function CustomError(c: Custom, v: Option<string>, req: Fields, env: Builtins): Option<string> {
    match c
    case NotInFuture =>
      var birth := env.parseDate(ToText(v));
      if birth.Some? && birth.value > env.now then Some(FutureBirthMessage) else None
    case EndNotBeforeStart =>
      if Truthy(Get(req, "startDate")) && Truthy(v) then
        var start := env.parseDate(req["startDate"]);
        var end := env.parseDate(v.value);
        if start.Some? && end.Some? && end.value < start.value then Some(EndBeforeStartMessage) else None
      else None
    case ReportRange =>
      if Truthy(Get(req, "startDate")) && Truthy(v) then
        var start := env.parseDate(req["startDate"]);
        var end := env.parseDate(v.value);
        if start.Some? && end.Some? then
          if end.value < start.value then Some(EndBeforeStartMessage)
          else if SpanDays(end.value - start.value) > MaxReportDays then Some(RangeTooLongMessage)
          else None
        else None
      else None
  }

  datatype Sanitizer = TrimSpace | ToInt | NormalizeEmail

  /**
   * `toInt()` renders the number `parseInt` reads (NaN when there are no
   * digits); `trim()` is `String.prototype.trim`.
   */
  function Sanitize(s: Sanitizer, text: string, env: Builtins): string {
    match s
    case TrimSpace => Trim(text)
    case ToInt => var n := ParseInt(text); if n.Some? then IntToString(n.value) else "NaN"
    case NormalizeEmail => env.normalizeEmail(text)
  }

  /** One link of a chain: a sanitizer, a standard validator with its `withMessage`, or a custom validator. */
  datatype Step = San(sanitizer: Sanitizer) | Check(rule: Rule, message: string) | Cust(custom: Custom)

  /** `body(field)` / `query(field)`, `.optional()` when `optional`, then the steps. */
  datatype Chain = Chain(field: string, optional: bool, steps: seq<Step>)

  function Get(req: Fields, field: string): Option<string> {
    if field in req then Some(req[field]) else None
  }

  /** The string form validators see: `undefined` reads as the empty string. */
  function ToText(v: Option<string>): string {
    v.GetOr("")
  }

  /** The errors of running `steps` over `v`, and the value they leave. */
  function RunSteps(field: string, steps: seq<Step>, v: Option<string>, req: Fields, env: Builtins)
    : (r: (seq<FieldError>, Option<string>))
    ensures forall k | 0 <= k < |r.0| :: r.0[k].field == field
    ensures |r.0| <= |steps|
    decreases |steps|
  {
    if steps == [] then ([], v)
    else
      match steps[0]
      case San(s) =>
        RunSteps(field, steps[1..], Some(Sanitize(s, ToText(v), env)), req, env)
      case Check(rule, message) =>
        var rest := RunSteps(field, steps[1..], v, req, env);
        ((if RuleHolds(rule, ToText(v), env) then [] else [FieldError(field, message)]) + rest.0, rest.1)
      case Cust(c) =>
        var rest := RunSteps(field, steps[1..], v, req, env);
        var e := CustomError(c, v, req, env);
        ((if e.None? then [] else [FieldError(field, e.value)]) + rest.0, rest.1)
  }

  /** The value after the sanitizers among the first `k` steps. */
  function ValueAt(steps: seq<Step>, k: nat, v: Option<string>, env: Builtins): (r: Option<string>)
    requires k <= |steps|
    ensures v.Some? ==> r.Some?
    decreases k
  {
    if k == 0 then v
    else
      var w := ValueAt(steps, k - 1, v, env);
      match steps[k - 1]
      case San(s) => Some(Sanitize(s, ToText(w), env))
      case _ => w
  }

  /**
   * A chain without errors passed every one of its validators, each on the
   * value as the sanitizers before it left it, and leaves the value all its
   * sanitizers produce.
   */
  lemma {:induction false} NoErrorsAllPass(field: string, steps: seq<Step>, v: Option<string>, req: Fields, env: Builtins)
    requires RunSteps(field, steps, v, req, env).0 == []
    ensures RunSteps(field, steps, v, req, env).1 == ValueAt(steps, |steps|, v, env)
    ensures forall k | 0 <= k < |steps| && steps[k].Check? ::
      RuleHolds(steps[k].rule, ToText(ValueAt(steps, k, v, env)), env)
    ensures forall k | 0 <= k < |steps| && steps[k].Cust? ::
      CustomError(steps[k].custom, ValueAt(steps, k, v, env), req, env).None?
    decreases |steps|
  {
    if steps != [] {
      var w := if steps[0].San? then Some(Sanitize(steps[0].sanitizer, ToText(v), env)) else v;
      NoErrorsAllPass(field, steps[1..], w, req, env);
      forall k | 0 <= k <= |steps| - 1
        ensures ValueAt(steps[1..], k, w, env) == ValueAt(steps, k + 1, v, env)
      {
        ValueAtShift(steps, k, v, env);
      }
    }
  }

  lemma {:induction false} ValueAtShift(steps: seq<Step>, k: nat, v: Option<string>, env: Builtins)
    requires steps != [] && k <= |steps| - 1
    ensures var w := if steps[0].San? then Some(Sanitize(steps[0].sanitizer, ToText(v), env)) else v;
      ValueAt(steps[1..], k, w, env) == ValueAt(steps, k + 1, v, env)
  {
    if k > 0 {
      ValueAtShift(steps, k - 1, v, env);
      assert steps[1..][k - 1] == steps[k];
    }
  }

  /** One chain over the request: an optional field that is absent skips the whole chain. */
  function RunChain(c: Chain, req: Fields, env: Builtins): (r: (seq<FieldError>, Fields))
    ensures forall k | 0 <= k < |r.0| :: r.0[k].field == c.field
    ensures forall f | f != c.field :: Get(r.1, f) == Get(req, f)
  {
    if c.optional && c.field !in req then ([], req)
    else
      var (errors, v) := RunSteps(c.field, c.steps, Get(req, c.field), req, env);
      (errors, if v.Some? then req[c.field := v.value] else req)
  }

  /** The chains in order, each seeing the request as the chains before it left it; all errors, in order. */
  function RunSchema(chains: seq<Chain>, req: Fields, env: Builtins): (r: (seq<FieldError>, Fields))
    decreases |chains|
  {
    if chains == [] then ([], req)
    else
      var (e, req') := RunChain(chains[0], req, env);
      var rest := RunSchema(chains[1..], req', env);
      (e + rest.0, rest.1)
  }

  const ValidationMessage := "Validasi gagal"

  /** The chains followed by the `validate` middleware: the sanitized request, or the collected errors. */
  function Validate(chains: seq<Chain>, req: Fields, env: Builtins): (r: Result<Fields, AppError>)
    ensures r.Err? ==> (WellFormed(r.error) && r.error.cls.Validation? && r.error.message == ValidationMessage
      && r.error.cls.errors == RunSchema(chains, req, env).0 && r.error.cls.errors != [])
    ensures r.Ok? <==> RunSchema(chains, req, env).0 == []
  {
    var (errors, req') := RunSchema(chains, req, env);
    if errors == [] then Ok(req') else Err(ValidationError(ValidationMessage, errors))
  }

  /** The request as the chains before the `j`-th one leave it. */
  function RequestBefore(chains: seq<Chain>, j: nat, req: Fields, env: Builtins): Fields
    requires j <= |chains|
    decreases j
  {
    if j == 0 then req else RunChain(chains[j - 1], RequestBefore(chains, j - 1, req, env), env).1
  }

  /** Field names in chain order; the schemas name each field once. */
  predicate DistinctFields(chains: seq<Chain>) {
    forall i, j | 0 <= i < j < |chains| :: chains[i].field != chains[j].field
  }

  /**
   * When a schema passes, every chain ran without error on the request as the
   * chains before it left it.
   */
  lemma {:induction false} SchemaChainsPass(chains: seq<Chain>, req: Fields, env: Builtins, j: nat)
    requires RunSchema(chains, req, env).0 == [] && j < |chains|
    ensures RunChain(chains[j], RequestBefore(chains, j, req, env), env).0 == []
    ensures RunSchema(chains, req, env).1 == RunSchema(chains[j..], RequestBefore(chains, j, req, env), env).1
    decreases j
  {
    if j > 0 {
      var req1 := RunChain(chains[0], req, env).1;
      SchemaChainsPass(chains[1..], req1, env, j - 1);
      RequestBeforeShift(chains, j, req, env);
      assert chains[1..][j - 1..] == chains[j..];
    }
  }

  lemma {:induction false} RequestBeforeShift(chains: seq<Chain>, j: nat, req: Fields, env: Builtins)
    requires 0 < j <= |chains|
    ensures RequestBefore(chains[1..], j - 1, RunChain(chains[0], req, env).1, env) == RequestBefore(chains, j, req, env)
    decreases j
  {
    if j > 1 {
      RequestBeforeShift(chains, j - 1, req, env);
      assert chains[1..][j - 2] == chains[j - 1];
    }
  }

  /** The chains after a field's own leave its value alone. */
  lemma {:induction false} LaterChainsKeep(chains: seq<Chain>, req: Fields, env: Builtins, f: string)
    requires forall i | 0 <= i < |chains| :: chains[i].field != f
    ensures Get(RunSchema(chains, req, env).1, f) == Get(req, f)
    decreases |chains|
  {
    if chains != [] {
      LaterChainsKeep(chains[1..], RunChain(chains[0], req, env).1, env, f);
    }
  }

  /** So do the chains before it: the `j`-th chain sees the field as the client sent it. */
  lemma {:induction false} EarlierChainsKeep(chains: seq<Chain>, j: nat, req: Fields, env: Builtins, f: string)
    requires j <= |chains| && forall i | 0 <= i < j :: chains[i].field != f
    ensures Get(RequestBefore(chains, j, req, env), f) == Get(req, f)
    decreases j
  {
    if j > 0 {
      EarlierChainsKeep(chains, j - 1, req, env, f);
    }
  }

  /**
   * The field of the `j`-th chain of a passing schema: its chain saw the
   * client's value and passed, and the sanitized request holds what that
   * chain's sanitizers made of it (absent only if the field was absent and
   * nothing sanitized it).
   */
  lemma FieldOfPassingSchema(chains: seq<Chain>, req: Fields, env: Builtins, j: nat)
    requires DistinctFields(chains) && j < |chains|
    requires RunSchema(chains, req, env).0 == []
    ensures var c := chains[j];
      var before := RequestBefore(chains, j, req, env);
      Get(before, c.field) == Get(req, c.field)
      && RunChain(c, before, env).0 == []
      && Get(RunSchema(chains, req, env).1, c.field) == Get(RunChain(c, before, env).1, c.field)
  {
    var c := chains[j];
    var before := RequestBefore(chains, j, req, env);
    EarlierChainsKeep(chains, j, req, env, c.field);
    SchemaChainsPass(chains, req, env, j);
    var after := RunChain(c, before, env).1;
    assert chains[j..] == [c] + chains[j + 1..];
    assert RunSchema(chains[j..], before, env).1 == RunSchema(chains[j + 1..], after, env).1;
    LaterChainsKeep(chains[j + 1..], after, env, c.field);
  }

  /**
   * A chain that ran (its field was present, or the chain is not optional)
   * and passed: each validator held on the value as sanitized up to it, and
   * the request now holds the fully sanitized value.
   */
  lemma PassingChain(c: Chain, req: Fields, env: Builtins)
    requires c.field in req || !c.optional
    requires RunChain(c, req, env).0 == []
    ensures var v := Get(req, c.field);
      (forall k | 0 <= k < |c.steps| && c.steps[k].Check? ::
        RuleHolds(c.steps[k].rule, ToText(ValueAt(c.steps, k, v, env)), env))
      && (forall k | 0 <= k < |c.steps| && c.steps[k].Cust? ::
        CustomError(c.steps[k].custom, ValueAt(c.steps, k, v, env), req, env).None?)
      && Get(RunChain(c, req, env).1, c.field) == ValueAt(c.steps, |c.steps|, v, env)
  {
    NoErrorsAllPass(c.field, c.steps, Get(req, c.field), req, env);
  }

  /** The field of the `j`-th chain of a passing schema, in terms of the value the client sent. */
  lemma PassingField(chains: seq<Chain>, req: Fields, env: Builtins, j: nat)
    requires DistinctFields(chains) && j < |chains|
    requires RunSchema(chains, req, env).0 == []
    requires chains[j].field in req || !chains[j].optional
    ensures var c := chains[j];
      var v := Get(req, c.field);
      (forall k | 0 <= k < |c.steps| && c.steps[k].Check? ::
        RuleHolds(c.steps[k].rule, ToText(ValueAt(c.steps, k, v, env)), env))
      && (forall k | 0 <= k < |c.steps| && c.steps[k].Cust? ::
        CustomError(c.steps[k].custom, ValueAt(c.steps, k, v, env), RequestBefore(chains, j, req, env), env).None?)
      && Get(RunSchema(chains, req, env).1, c.field) == ValueAt(c.steps, |c.steps|, v, env)
  {
    FieldOfPassingSchema(chains, req, env, j);
    PassingChain(chains[j], RequestBefore(chains, j, req, env), env);
  }

  /** The value the steps after the first one start from. */
  function AfterFirst(steps: seq<Step>, v: Option<string>, env: Builtins): Option<string>
    requires steps != []
  {
    if steps[0].San? then Some(Sanitize(steps[0].sanitizer, ToText(v), env)) else v
  }

  /** The errors of the steps after the first one are among the errors of all of them. */
  lemma RestErrorsReported(field: string, steps: seq<Step>, v: Option<string>, req: Fields, env: Builtins)
    requires steps != []
    ensures forall e | e in RunSteps(field, steps[1..], AfterFirst(steps, v, env), req, env).0 ::
      e in RunSteps(field, steps, v, req, env).0
  {
  }

  /** The converse of `NoErrorsAllPass`: a validator that fails on its value is reported. */
  lemma {:induction false} FailingStepReported(field: string, steps: seq<Step>, v: Option<string>, req: Fields, env: Builtins, k: nat)
    requires k < |steps|
    ensures steps[k].Check? && !RuleHolds(steps[k].rule, ToText(ValueAt(steps, k, v, env)), env)
      ==> FieldError(field, steps[k].message) in RunSteps(field, steps, v, req, env).0
    ensures steps[k].Cust? && CustomError(steps[k].custom, ValueAt(steps, k, v, env), req, env).Some?
      ==> (FieldError(field, CustomError(steps[k].custom, ValueAt(steps, k, v, env), req, env).value)
        in RunSteps(field, steps, v, req, env).0)
    decreases k
  {
    if k > 0 {
      var w := AfterFirst(steps, v, env);
      FailingStepReported(field, steps[1..], w, req, env, k - 1);
      ValueAtShift(steps, k - 1, v, env);
      assert steps[1..][k - 1] == steps[k];
      RestErrorsReported(field, steps, v, req, env);
    }
  }

  /** Every error of the `j`-th chain, run on the request as the chains before it left it, is in the schema's list. */
  lemma {:induction false} ChainErrorsReported(chains: seq<Chain>, req: Fields, env: Builtins, j: nat)
    requires j < |chains|
    ensures forall e | e in RunChain(chains[j], RequestBefore(chains, j, req, env), env).0 ::
      e in RunSchema(chains, req, env).0
    decreases j
  {
    if j > 0 {
      var req1 := RunChain(chains[0], req, env).1;
      ChainErrorsReported(chains[1..], req1, env, j - 1);
      RequestBeforeShift(chains, j, req, env);
    }
  }

  /**
   * A validator of the `j`-th chain that fails on the value the client sent
   * (sanitized up to it) puts its message into the `ValidationError`.
   */
  lemma FailingFieldReported(chains: seq<Chain>, req: Fields, env: Builtins, j: nat, k: nat)
    requires DistinctFields(chains) && j < |chains| && k < |chains[j].steps|
    requires chains[j].field in req || !chains[j].optional
    requires chains[j].steps[k].Check?
    requires !RuleHolds(chains[j].steps[k].rule, ToText(ValueAt(chains[j].steps, k, Get(req, chains[j].field), env)), env)
    ensures Validate(chains, req, env).Err?
    ensures FieldError(chains[j].field, chains[j].steps[k].message) in Validate(chains, req, env).error.cls.errors
  {
    var c := chains[j];
    var before := RequestBefore(chains, j, req, env);
    EarlierChainsKeep(chains, j, req, env, c.field);
    FailingStepReported(c.field, c.steps, Get(req, c.field), before, env, k);
    var e := FieldError(c.field, c.steps[k].message);
    assert e in RunChain(c, before, env).0;
    ChainErrorsReported(chains, req, env, j);
    assert e in RunSchema(chains, req, env).0;
  }

  /** The same for a custom validator, which judges the request as the earlier chains left it. */
  lemma FailingCustomReported(chains: seq<Chain>, req: Fields, env: Builtins, j: nat, k: nat)
    requires DistinctFields(chains) && j < |chains| && k < |chains[j].steps|
    requires chains[j].field in req || !chains[j].optional
    requires chains[j].steps[k].Cust?
    requires CustomError(chains[j].steps[k].custom, ValueAt(chains[j].steps, k, Get(req, chains[j].field), env),
      RequestBefore(chains, j, req, env), env).Some?
    ensures Validate(chains, req, env).Err?
    ensures FieldError(chains[j].field, CustomError(chains[j].steps[k].custom,
      ValueAt(chains[j].steps, k, Get(req, chains[j].field), env), RequestBefore(chains, j, req, env), env).value)
      in Validate(chains, req, env).error.cls.errors
  {
    var c := chains[j];
    var before := RequestBefore(chains, j, req, env);
    EarlierChainsKeep(chains, j, req, env, c.field);
    FailingStepReported(c.field, c.steps, Get(req, c.field), before, env, k);
    ChainErrorsReported(chains, req, env, j);
    var e := FieldError(c.field, CustomError(c.steps[k].custom, ValueAt(c.steps, k, Get(req, c.field), env), before, env).value);
    assert e in RunChain(c, before, env).0;
    assert e in RunSchema(chains, req, env).0;
  }

  predicate NoSanitizer(steps: seq<Step>) {
    forall k | 0 <= k < |steps| :: !steps[k].San?
  }

  lemma {:induction false} StepsWithoutSanitizerKeep(field: string, steps: seq<Step>, v: Option<string>, req: Fields, env: Builtins)
    requires NoSanitizer(steps)
    ensures RunSteps(field, steps, v, req, env).1 == v
    decreases |steps|
  {
    if steps != [] {
      StepsWithoutSanitizerKeep(field, steps[1..], v, req, env);
    }
  }

  /** A chain made of validators only leaves the request as it found it. */
  lemma ChainWithoutSanitizerKeeps(c: Chain, req: Fields, env: Builtins)
    requires NoSanitizer(c.steps)
    ensures RunChain(c, req, env).1 == req
  {
    StepsWithoutSanitizerKeep(c.field, c.steps, Get(req, c.field), req, env);
  }

  lemma {:induction false} ValueAtWithoutSanitizer(steps: seq<Step>, k: nat, v: Option<string>, env: Builtins)
    requires k <= |steps| && NoSanitizer(steps[..k])
    ensures ValueAt(steps, k, v, env) == v
    decreases k
  {
    if k > 0 {
      assert steps[..k - 1] == steps[..k][..k - 1] && steps[..k][k - 1] == steps[k - 1];
      ValueAtWithoutSanitizer(steps, k - 1, v, env);
    }
  }

  /** After `trim()` and validators only, the value is the trimmed text. */
  lemma {:induction false} ValueAtAfterTrim(steps: seq<Step>, k: nat, v: Option<string>, env: Builtins)
    requires 1 <= k <= |steps| && steps[0] == San(TrimSpace) && forall i | 1 <= i < k :: !steps[i].San?
    ensures ValueAt(steps, k, v, env) == Some(Trim(ToText(v)))
    decreases k
  {
    if k > 1 {
      ValueAtAfterTrim(steps, k - 1, v, env);
    }
  }

  /** `trim()` followed by validators only. */
  predicate TrimThenChecks(c: Chain) {
    |c.steps| >= 1 && c.steps[0] == San(TrimSpace) && NoSanitizer(c.steps[1..])
  }

  /** A field that must be present: not optional, `trim()`, then `notEmpty()`, then validators only. */
  predicate RequiredTrimmedChain(c: Chain) {
    !c.optional && TrimThenChecks(c) && |c.steps| >= 2 && c.steps[1].Check? && c.steps[1].rule == NotEmpty
  }

  /**
   * A passing field whose chain is `trim()` followed by validators: the
   * validators held on the trimmed text, which is what the request now holds.
   */
  lemma TrimmedFieldPasses(chains: seq<Chain>, req: Fields, env: Builtins, j: nat)
    requires DistinctFields(chains) && j < |chains| && RunSchema(chains, req, env).0 == []
    requires chains[j].field in req || !chains[j].optional
    requires TrimThenChecks(chains[j])
    ensures var c := chains[j];
      var t := Trim(ToText(Get(req, c.field)));
      (forall k | 1 <= k < |c.steps| && c.steps[k].Check? :: RuleHolds(c.steps[k].rule, t, env))
      && Get(RunSchema(chains, req, env).1, c.field) == Some(t)
  {
    var c := chains[j];
    var v := Get(req, c.field);
    PassingField(chains, req, env, j);
    forall k | 1 <= k <= |c.steps| ensures ValueAt(c.steps, k, v, env) == Some(Trim(ToText(v))) {
      forall i | 1 <= i < k ensures !c.steps[i].San? { assert c.steps[1..][i - 1] == c.steps[i]; }
      ValueAtAfterTrim(c.steps, k, v, env);
    }
  }

  /**
   * A passing field whose chain is `trim()`, `notEmpty()` and more
   * validators: the client sent it, its trimmed text is not empty, every
   * validator held on that text, and the request now holds it.
   */
  lemma RequiredTrimmed(chains: seq<Chain>, req: Fields, env: Builtins, j: nat)
    requires DistinctFields(chains) && j < |chains| && RunSchema(chains, req, env).0 == []
    requires RequiredTrimmedChain(chains[j])
    ensures var c := chains[j];
      c.field in req && Trim(req[c.field]) != []
      && (forall k | 1 <= k < |c.steps| && c.steps[k].Check? :: RuleHolds(c.steps[k].rule, Trim(req[c.field]), env))
      && Get(RunSchema(chains, req, env).1, c.field) == Some(Trim(req[c.field]))
  {
    var f := chains[j].field;
    var t := Trim(ToText(Get(req, f)));
    TrimmedFieldPasses(chains, req, env, j);
    assert RuleHolds(chains[j].steps[1].rule, t, env);
    assert t != [];
    assert Trim("") == "";
    assert f in req;
  }

  /** One validator of a required trimmed field, held by the value the request now carries. */
  lemma RequiredRuleHolds(chains: seq<Chain>, req: Fields, env: Builtins, j: nat, k: nat)
    requires DistinctFields(chains) && j < |chains| && RunSchema(chains, req, env).0 == []
    requires RequiredTrimmedChain(chains[j]) && 1 <= k < |chains[j].steps| && chains[j].steps[k].Check?
    ensures var f := chains[j].field;
      var out := RunSchema(chains, req, env).1;
      f in req && f in out && out[f] == Trim(req[f]) && out[f] != []
      && RuleHolds(chains[j].steps[k].rule, out[f], env)
  {
    RequiredTrimmed(chains, req, env, j);
  }

  /** One validator of an optional trimmed field the client sent, held by the value the request now carries. */
  lemma OptionalRuleHolds(chains: seq<Chain>, req: Fields, env: Builtins, j: nat, k: nat)
    requires DistinctFields(chains) && j < |chains| && RunSchema(chains, req, env).0 == []
    requires TrimThenChecks(chains[j]) && chains[j].field in req && 1 <= k < |chains[j].steps| && chains[j].steps[k].Check?
    ensures var f := chains[j].field;
      var out := RunSchema(chains, req, env).1;
      f in out && out[f] == Trim(req[f]) && RuleHolds(chains[j].steps[k].rule, out[f], env)
  {
    TrimmedFieldPasses(chains, req, env, j);
  }

  /** One validator of a field whose chain has no sanitizer, held by the value as sent, which the request keeps. */
  lemma PlainRuleHolds(chains: seq<Chain>, req: Fields, env: Builtins, j: nat, k: nat)
    requires DistinctFields(chains) && j < |chains| && RunSchema(chains, req, env).0 == []
    requires chains[j].field in req || !chains[j].optional
    requires NoSanitizer(chains[j].steps) && k < |chains[j].steps| && chains[j].steps[k].Check?
    ensures var f := chains[j].field;
      RuleHolds(chains[j].steps[k].rule, ToText(Get(req, f)), env)
      && Get(RunSchema(chains, req, env).1, f) == Get(req, f)
  {
    PlainFieldPasses(chains, req, env, j);
  }

  /** A validator of a field whose chain has no sanitizer that fails on the value as sent is reported with its message. */
  lemma PlainRuleReported(chains: seq<Chain>, req: Fields, env: Builtins, j: nat, k: nat)
    requires DistinctFields(chains) && j < |chains| && (chains[j].field in req || !chains[j].optional)
    requires NoSanitizer(chains[j].steps) && k < |chains[j].steps| && chains[j].steps[k].Check?
    requires !RuleHolds(chains[j].steps[k].rule, ToText(Get(req, chains[j].field)), env)
    ensures Validate(chains, req, env).Err?
    ensures FieldError(chains[j].field, chains[j].steps[k].message) in Validate(chains, req, env).error.cls.errors
  {
    UnsanitizedValue(chains[j].steps, k, Get(req, chains[j].field), env);
    FailingFieldReported(chains, req, env, j, k);
  }

  lemma UnsanitizedValue(steps: seq<Step>, k: nat, v: Option<string>, env: Builtins)
    requires NoSanitizer(steps) && k <= |steps|
    ensures ValueAt(steps, k, v, env) == v
  {
    assert NoSanitizer(steps[..k]) by {
      forall i | 0 <= i < k ensures !steps[..k][i].San? { assert steps[..k][i] == steps[i]; }
    }
    ValueAtWithoutSanitizer(steps, k, v, env);
  }

  /**
   * The email chain (`trim()`, validators including `isEmail()`, then
   * `normalizeEmail()`) of a passing schema: `isEmail` held on the trimmed
   * text, and the request now holds its normalized form.
   */
  lemma NormalizedRuleHolds(chains: seq<Chain>, req: Fields, env: Builtins, j: nat, k: nat)
    requires DistinctFields(chains) && j < |chains| && RunSchema(chains, req, env).0 == []
    requires chains[j].field in req || !chains[j].optional
    requires TrimChecksNormalize(chains[j]) && 1 <= k < |chains[j].steps| && chains[j].steps[k].Check?
    ensures var f := chains[j].field;
      var t := Trim(ToText(Get(req, f)));
      RuleHolds(chains[j].steps[k].rule, t, env)
      && Get(RunSchema(chains, req, env).1, f) == Some(env.normalizeEmail(t))
  {
    NormalizedFieldPasses(chains, req, env, j);
  }

  /** A required trimmed field that is absent, or only white space, is reported with its `notEmpty` message. */
  lemma MissingRequiredReported(chains: seq<Chain>, req: Fields, env: Builtins, j: nat)
    requires DistinctFields(chains) && j < |chains| && RequiredTrimmedChain(chains[j])
    requires Trim(ToText(Get(req, chains[j].field))) == []
    ensures Validate(chains, req, env).Err?
    ensures FieldError(chains[j].field, chains[j].steps[1].message) in Validate(chains, req, env).error.cls.errors
  {
    EmptyAfterTrimFails(chains[j], Get(req, chains[j].field), env);
    FailingFieldReported(chains, req, env, j, 1);
  }

  lemma EmptyAfterTrimFails(c: Chain, v: Option<string>, env: Builtins)
    requires |c.steps| >= 2 && c.steps[0] == San(TrimSpace) && c.steps[1].Check? && c.steps[1].rule == NotEmpty
    requires Trim(ToText(v)) == []
    ensures !RuleHolds(c.steps[1].rule, ToText(ValueAt(c.steps, 1, v, env)), env)
  {
    var t := Trim(ToText(v));
    assert ValueAt(c.steps, 1, v, env) == Some(Sanitize(c.steps[0].sanitizer, ToText(v), env)) == Some(t);
    assert !RuleHolds(NotEmpty, t, env);
  }

  /** A validator of a trimmed field that fails on the trimmed text the client sent is reported with its message. */
  lemma TrimmedRuleReported(chains: seq<Chain>, req: Fields, env: Builtins, j: nat, k: nat)
    requires DistinctFields(chains) && j < |chains| && TrimThenChecks(chains[j])
    requires chains[j].field in req && 1 <= k < |chains[j].steps| && chains[j].steps[k].Check?
    requires !RuleHolds(chains[j].steps[k].rule, Trim(req[chains[j].field]), env)
    ensures Validate(chains, req, env).Err?
    ensures FieldError(chains[j].field, chains[j].steps[k].message) in Validate(chains, req, env).error.cls.errors
  {
    var c := chains[j];
    forall i | 1 <= i < k ensures !c.steps[i].San? { assert c.steps[1..][i - 1] == c.steps[i]; }
    ValueAtAfterTrim(c.steps, k, Get(req, c.field), env);
    FailingFieldReported(chains, req, env, j, k);
  }

  /**
   * A validator of an email chain (`trim()`, validators, `normalizeEmail()`)
   * that fails on the trimmed text is reported with its message; an absent
   * required email is trimmed from the empty text.
   */
  lemma NormalizedRuleReported(chains: seq<Chain>, req: Fields, env: Builtins, j: nat, k: nat)
    requires DistinctFields(chains) && j < |chains| && TrimChecksNormalize(chains[j])
    requires chains[j].field in req || !chains[j].optional
    requires 1 <= k < |chains[j].steps| && chains[j].steps[k].Check?
    requires !RuleHolds(chains[j].steps[k].rule, Trim(ToText(Get(req, chains[j].field))), env)
    ensures Validate(chains, req, env).Err?
    ensures FieldError(chains[j].field, chains[j].steps[k].message) in Validate(chains, req, env).error.cls.errors
  {
    ValueAtAfterTrim(chains[j].steps, k, Get(req, chains[j].field), env);
    FailingFieldReported(chains, req, env, j, k);
  }

  /** A required email chain whose field is absent, or only white space, is reported with its `notEmpty` message. */
  lemma MissingNormalizedReported(chains: seq<Chain>, req: Fields, env: Builtins, j: nat)
    requires DistinctFields(chains) && j < |chains| && TrimChecksNormalize(chains[j]) && !chains[j].optional
    requires |chains[j].steps| >= 3 && chains[j].steps[1].Check? && chains[j].steps[1].rule == NotEmpty
    requires Trim(ToText(Get(req, chains[j].field))) == []
    ensures Validate(chains, req, env).Err?
    ensures FieldError(chains[j].field, chains[j].steps[1].message) in Validate(chains, req, env).error.cls.errors
  {
    EmptyAfterTrimFails(chains[j], Get(req, chains[j].field), env);
    FailingFieldReported(chains, req, env, j, 1);
  }

  /** `trim()`, validators only, then `normalizeEmail()`. */
  predicate TrimChecksNormalize(c: Chain) {
    |c.steps| >= 2 && c.steps[0] == San(TrimSpace) && c.steps[|c.steps| - 1] == San(NormalizeEmail)
    && forall i | 1 <= i < |c.steps| - 1 :: !c.steps[i].San?
  }

  /**
   * A passing field whose chain is `trim()`, validators, then
   * `normalizeEmail()`: the validators held on the trimmed text, and the
   * request now holds its normalized form.
   */
  lemma NormalizedFieldPasses(chains: seq<Chain>, req: Fields, env: Builtins, j: nat)
    requires DistinctFields(chains) && j < |chains| && RunSchema(chains, req, env).0 == []
    requires chains[j].field in req || !chains[j].optional
    requires TrimChecksNormalize(chains[j])
    ensures var c := chains[j];
      var t := Trim(ToText(Get(req, c.field)));
      (forall k | 1 <= k < |c.steps| && c.steps[k].Check? :: RuleHolds(c.steps[k].rule, t, env))
      && Get(RunSchema(chains, req, env).1, c.field) == Some(env.normalizeEmail(t))
  {
    var c := chains[j];
    var v := Get(req, c.field);
    var n := |c.steps|;
    var t := Trim(ToText(v));
    NormalizedValues(c, v, env);
    PassingField(chains, req, env, j);
    forall k | 1 <= k < n && c.steps[k].Check? ensures RuleHolds(c.steps[k].rule, t, env) {
      assert ValueAt(c.steps, k, v, env) == Some(t);
    }
  }

  lemma NormalizedValues(c: Chain, v: Option<string>, env: Builtins)
    requires TrimChecksNormalize(c)
    ensures forall k | 1 <= k < |c.steps| :: ValueAt(c.steps, k, v, env) == Some(Trim(ToText(v)))
    ensures ValueAt(c.steps, |c.steps|, v, env) == Some(env.normalizeEmail(Trim(ToText(v))))
  {
    var n := |c.steps|;
    forall k | 1 <= k < n ensures ValueAt(c.steps, k, v, env) == Some(Trim(ToText(v))) {
      ValueAtAfterTrim(c.steps, k, v, env);
    }
    assert c.steps[n - 1] == San(NormalizeEmail);
  }

  /** A passing field whose chain has no sanitizer: the validators held on the value as sent, which stays as it was. */
  lemma PlainFieldPasses(chains: seq<Chain>, req: Fields, env: Builtins, j: nat)
    requires DistinctFields(chains) && j < |chains| && RunSchema(chains, req, env).0 == []
    requires chains[j].field in req || !chains[j].optional
    requires NoSanitizer(chains[j].steps)
    ensures var c := chains[j];
      var v := Get(req, c.field);
      (forall k | 0 <= k < |c.steps| && c.steps[k].Check? :: RuleHolds(c.steps[k].rule, ToText(v), env))
      && (forall k | 0 <= k < |c.steps| && c.steps[k].Cust? ::
        CustomError(c.steps[k].custom, v, RequestBefore(chains, j, req, env), env).None?)
      && Get(RunSchema(chains, req, env).1, c.field) == v
  {
    var c := chains[j];
    var v := Get(req, c.field);
    PassingField(chains, req, env, j);
    forall k | 0 <= k <= |c.steps| ensures ValueAt(c.steps, k, v, env) == v {
      assert NoSanitizer(c.steps[..k]) by {
        forall i | 0 <= i < k ensures !c.steps[..k][i].San? { assert c.steps[..k][i] == c.steps[i]; }
      }
      ValueAtWithoutSanitizer(c.steps, k, v, env);
    }
  }

  /** The request before the `j`-th chain, when every earlier chain is made of validators only. */
  lemma {:induction false} UnsanitizedPrefixKeeps(chains: seq<Chain>, j: nat, req: Fields, env: Builtins)
    requires j <= |chains| && forall i | 0 <= i < j :: NoSanitizer(chains[i].steps)
    ensures RequestBefore(chains, j, req, env) == req
    decreases j
  {
    if j > 0 {
      UnsanitizedPrefixKeeps(chains, j - 1, req, env);
      ChainWithoutSanitizerKeeps(chains[j - 1], req, env);
    }
  }

  /** A field keeps the client's value up to the `j`-th chain when only validator chains name it before. */
  lemma {:induction false} FieldKeptBefore(chains: seq<Chain>, j: nat, req: Fields, env: Builtins, f: string)
    requires j <= |chains| && forall i | 0 <= i < j :: chains[i].field != f || NoSanitizer(chains[i].steps)
    ensures Get(RequestBefore(chains, j, req, env), f) == Get(req, f)
    decreases j
  {
    if j > 0 {
      FieldKeptBefore(chains, j - 1, req, env, f);
      if chains[j - 1].field == f {
        ChainWithoutSanitizerKeeps(chains[j - 1], RequestBefore(chains, j - 1, req, env), env);
      }
    }
  }

  /** Every validator of `steps` holds on the value as sanitized up to it. */
  predicate StepsPass(steps: seq<Step>, v: Option<string>, req: Fields, env: Builtins) {
    (forall k | 0 <= k < |steps| && steps[k].Check? :: RuleHolds(steps[k].rule, ToText(ValueAt(steps, k, v, env)), env))
    && (forall k | 0 <= k < |steps| && steps[k].Cust? :: CustomError(steps[k].custom, ValueAt(steps, k, v, env), req, env).None?)
  }

  /** The converse of `NoErrorsAllPass`: steps whose validators all hold report nothing. */
  lemma {:induction false} AllPassNoErrors(field: string, steps: seq<Step>, v: Option<string>, req: Fields, env: Builtins)
    requires StepsPass(steps, v, req, env)
    ensures RunSteps(field, steps, v, req, env).0 == []
    decreases |steps|
  {
    if steps != [] {
      var w := if steps[0].San? then Some(Sanitize(steps[0].sanitizer, ToText(v), env)) else v;
      forall k | 0 <= k <= |steps| - 1
        ensures ValueAt(steps[1..], k, w, env) == ValueAt(steps, k + 1, v, env)
      {
        ValueAtShift(steps, k, v, env);
      }
      assert StepsPass(steps[1..], w, req, env) by {
        forall k | 0 <= k < |steps| - 1 ensures steps[1..][k] == steps[k + 1] { }
      }
      AllPassNoErrors(field, steps[1..], w, req, env);
      assert ValueAt(steps, 0, v, env) == v;
    }
  }

  /** A chain whose validators all hold on the field's value (or that an absent optional field skips) reports nothing. */
  lemma ChainPasses(c: Chain, req: Fields, env: Builtins)
    requires (c.optional && c.field !in req) || StepsPass(c.steps, Get(req, c.field), req, env)
    ensures RunChain(c, req, env).0 == []
  {
    if !(c.optional && c.field !in req) {
      AllPassNoErrors(c.field, c.steps, Get(req, c.field), req, env);
    }
  }

  /** A chain of validators only reports nothing when each of them holds on the field's value. */
  lemma PlainChainPasses(c: Chain, req: Fields, env: Builtins)
    requires NoSanitizer(c.steps) && (c.field in req || !c.optional)
    requires forall k | 0 <= k < |c.steps| && c.steps[k].Check? :: RuleHolds(c.steps[k].rule, ToText(Get(req, c.field)), env)
    requires forall k | 0 <= k < |c.steps| && c.steps[k].Cust? :: CustomError(c.steps[k].custom, Get(req, c.field), req, env).None?
    ensures RunChain(c, req, env).0 == []
  {
    forall k | 0 <= k <= |c.steps| ensures ValueAt(c.steps, k, Get(req, c.field), env) == Get(req, c.field) {
      assert NoSanitizer(c.steps[..k]) by {
        forall i | 0 <= i < k ensures !c.steps[..k][i].San? { assert c.steps[..k][i] == c.steps[i]; }
      }
      ValueAtWithoutSanitizer(c.steps, k, Get(req, c.field), env);
    }
    ChainPasses(c, req, env);
  }

  /** A chain of `trim()` and validators reports nothing when each validator holds on the trimmed value. */
  lemma TrimmedChainPasses(c: Chain, req: Fields, env: Builtins)
    requires TrimThenChecks(c) && (c.field in req || !c.optional)
    requires forall k | 1 <= k < |c.steps| && c.steps[k].Check? :: RuleHolds(c.steps[k].rule, Trim(ToText(Get(req, c.field))), env)
    requires forall k | 1 <= k < |c.steps| && c.steps[k].Cust? ::
      CustomError(c.steps[k].custom, Some(Trim(ToText(Get(req, c.field)))), req, env).None?
    ensures RunChain(c, req, env).0 == []
  {
    var v := Get(req, c.field);
    forall k | 1 <= k <= |c.steps| ensures ValueAt(c.steps, k, v, env) == Some(Trim(ToText(v))) {
      forall i | 1 <= i < k ensures !c.steps[i].San? { assert c.steps[1..][i - 1] == c.steps[i]; }
      ValueAtAfterTrim(c.steps, k, v, env);
    }
    ChainPasses(c, req, env);
  }

  /** The converse of `SchemaChainsPass`: when every chain passes on the request it sees, so does the schema. */
  lemma {:induction false} ChainsPassSchemaPasses(chains: seq<Chain>, req: Fields, env: Builtins)
    requires forall j | 0 <= j < |chains| :: RunChain(chains[j], RequestBefore(chains, j, req, env), env).0 == []
    ensures RunSchema(chains, req, env).0 == []
    decreases |chains|
  {
    if chains != [] {
      var req1 := RunChain(chains[0], req, env).1;
      forall j | 0 <= j < |chains| - 1
        ensures RunChain(chains[1..][j], RequestBefore(chains[1..], j, req1, env), env).0 == []
      {
        RequestBeforeShift(chains, j + 1, req, env);
        assert chains[1..][j] == chains[j + 1];
      }
      ChainsPassSchemaPasses(chains[1..], req1, env);
      assert RunChain(chains[0], RequestBefore(chains, 0, req, env), env).0 == [];
      assert RunSchema(chains, req, env).0 == RunChain(chains[0], req, env).0 + RunSchema(chains[1..], req1, env).0;
    }
  }

  // ---------------------------------------------------------------------------
  // What the patterns and rules guarantee about an accepted value

  /** An accepted `isInt` text is what `toInt()` reads back, as a number. */
  lemma ParseIntOfIntText(s: string)
    requires IsIntText(s)
    ensures ParseInt(s) == Some(IntTextValue(s))
  {
    var ds := if s[0] == '-' || s[0] == '+' then s[1..] else s;
    assert ds != [] && AllDigits(ds);
    if s[0] == '-' {
      assert s == "-" + ds;
      ParseIntOfNegative(ds);
    } else if s[0] == '+' {
      assert s == "+" + ds;
      ParseIntOfPlus(ds);
    } else {
      ParseIntOfDigits(ds);
    }
  }

  /** `toInt()` of an accepted integer text renders its value, and `parseInt` of that is the value again. */
  lemma ToIntOfIntText(s: string, env: Builtins)
    requires IsIntText(s)
    ensures Sanitize(ToInt, s, env) == IntToString(IntTextValue(s))
    ensures ParseInt(Sanitize(ToInt, s, env)) == Some(IntTextValue(s))
  {
    ParseIntOfIntText(s);
    ParseIntOfIntToString(IntTextValue(s));
  }

  /** `^\d+$` accepts exactly the texts `parseInt` reads whole, as a non-negative number. */
  lemma DigitsParse(s: string)
    requires MatchesPattern(Digits, s)
    ensures ParseInt(s) == Some(DecimalValue(s)) && DecimalValue(s) >= 0
  {
    ParseIntDigitsThen(s, "");
    assert s + "" == s;
  }

  /** `^\d+\/\d+$` is two digit runs around the only slash. */
  lemma DigitsSlashDigitsSplit(s: string) returns (a: string, b: string)
    requires MatchesPattern(DigitsSlashDigits, s)
    ensures DigitRun(a) && DigitRun(b) && s == a + "/" + b
  {
    var i :| 0 <= i < |s| && s[i] == '/' && DigitRun(s[..i]) && DigitRun(s[i + 1..]);
    a, b := s[..i], s[i + 1..];
    assert s == s[..i] + [s[i]] + s[i + 1..];
  }

  /** No line terminator among the first `n` characters. */
  predicate NoBreakBefore(s: string, n: nat)
    requires n <= |s|
  {
    forall k | 0 <= k < n :: !IsLineTerminator(s[k])
  }

  /** Some letter and some digit, each with no line break before it. */
  predicate LetterAndDigitBeforeBreak(s: string) {
    exists i, j | 0 <= i < |s| && 0 <= j < |s| ::
      IsAsciiLetter(s[i]) && IsDigit(s[j]) && NoBreakBefore(s, i) && NoBreakBefore(s, j)
  }

  /** The password pattern holds exactly when a letter and a digit both come before the first line break. */
  lemma LetterAndDigitIff(s: string)
    ensures MatchesPattern(LetterAndDigit, s) <==> LetterAndDigitBeforeBreak(s)
  {
    if MatchesPattern(LetterAndDigit, s) {
      LetterAndDigitFound(s);
    }
    if LetterAndDigitBeforeBreak(s) {
      LetterAndDigitInLine(s);
    }
  }

  lemma LetterAndDigitFound(s: string)
    requires MatchesPattern(LetterAndDigit, s)
    ensures LetterAndDigitBeforeBreak(s)
  {
    var line := FirstLine(s);
    var i :| 0 <= i < |line| && IsAsciiLetter(line[i]);
    var j :| 0 <= j < |line| && IsDigit(line[j]);
    assert s[i] == line[i] && s[j] == line[j];
    assert NoBreakBefore(s, i) by {
      forall k | 0 <= k < i ensures !IsLineTerminator(s[k]) { assert s[k] == line[k]; }
    }
    assert NoBreakBefore(s, j) by {
      forall k | 0 <= k < j ensures !IsLineTerminator(s[k]) { assert s[k] == line[k]; }
    }
  }

  lemma LetterAndDigitInLine(s: string)
    requires LetterAndDigitBeforeBreak(s)
    ensures MatchesPattern(LetterAndDigit, s)
  {
    var line := FirstLine(s);
    var i, j :| 0 <= i < |s| && 0 <= j < |s| &&
      IsAsciiLetter(s[i]) && IsDigit(s[j]) && NoBreakBefore(s, i) && NoBreakBefore(s, j);
    BeforeBreakInLine(s, i);
    BeforeBreakInLine(s, j);
    assert line[i] == s[i] && line[j] == s[j];
  }

  /** A character with no line break before it, and not itself a break, lies on the first line. */
  lemma BeforeBreakInLine(s: string, i: nat)
    requires i < |s| && NoBreakBefore(s, i) && !IsLineTerminator(s[i])
    ensures i < |FirstLine(s)|
  {
    var n := |FirstLine(s)|;
    if n <= i {
      assert false;
    }
  }

  /** The span rule: at most 365 days means a difference of at most 365 times 86 400 000 ms. */
  lemma SpanDaysWithin(diff: nat)
    ensures SpanDays(diff) <= MaxReportDays <==> diff <= MaxReportDays * DayMillis
  {
    var d := SpanDays(diff);
    if d <= MaxReportDays && d > 0 {
      assert d * DayMillis <= MaxReportDays * DayMillis;
    }
    if d > MaxReportDays {
      assert (d - 1) * DayMillis >= MaxReportDays * DayMillis;
    }
  }

  /**
   * The report range check, once both dates parse: reversed dates are
   * refused first; then a span of exactly 365 days passes and one
   * millisecond more does not.
   */
  lemma ReportRangeBoundary(v: string, req: Fields, env: Builtins)
    requires Truthy(Get(req, "startDate")) && v != []
    requires env.parseDate(req["startDate"]).Some? && env.parseDate(v).Some?
    ensures var start := env.parseDate(req["startDate"]).value;
      var end := env.parseDate(v).value;
      CustomError(ReportRange, Some(v), req, env) ==
        if end < start then Some(EndBeforeStartMessage)
        else if end - start > MaxReportDays * DayMillis then Some(RangeTooLongMessage)
        else None
  {
    var start := env.parseDate(req["startDate"]).value;
    var end := env.parseDate(v).value;
    if end >= start {
      SpanDaysWithin(end - start);
    }
  }
}
