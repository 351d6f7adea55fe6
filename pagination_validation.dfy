/**
 * The `page` and `limit` query chains that every list endpoint shares: an
 * optional integer of at least 1, and an optional integer from 1 to 100,
 * each converted with `toInt()` once it passed.
 */
module PaginationValidation {
  import opened Wrappers
  import opened JsNumber
  import opened Errors
  import opened Validator

  const PageMessage := "Page harus berupa angka positif"
  const LimitMessage := "Limit harus berupa angka antara 1-100"
  const PageRule := Check(IsInt(Some(1), None), PageMessage)
  const LimitRule := Check(IsInt(Some(1), Some(100)), LimitMessage)
  const PageChain := Chain("page", true, [PageRule, San(ToInt)])
  const LimitChain := Chain("limit", true, [LimitRule, San(ToInt)])

  /** `paginationValidation` (query). */
  const PaginationRules: seq<Chain> := [PageChain, LimitChain]

  /** A page text the chain accepts: an integer text worth at least 1. */
  predicate PageText(s: string) {
    IsIntText(s) && IntTextValue(s) >= 1
  }

  /** A limit text the chain accepts: an integer text worth 1 to 100. */
  predicate LimitText(s: string) {
    IsIntText(s) && 1 <= IntTextValue(s) <= 100
  }

  /**
   * The page and limit chains of a passing query: `isInt` held, so `toInt()`
   * left a number that `parseInt` reads back within the bounds.
   */
  lemma PagingFields(chains: seq<Chain>, query: Fields, env: Builtins, jp: nat, jl: nat)
    requires DistinctFields(chains) && jp < |chains| && jl < |chains|
    requires RunSchema(chains, query, env).0 == []
    requires chains[jp] == PageChain && chains[jl] == LimitChain
    ensures var out := RunSchema(chains, query, env).1;
      && ("page" in query ==>
        PageText(query["page"]) && "page" in out && ParseInt(out["page"]) == Some(IntTextValue(query["page"])))
      && ("limit" in query ==>
        LimitText(query["limit"]) && "limit" in out && ParseInt(out["limit"]) == Some(IntTextValue(query["limit"])))
  {
    if "page" in query {
      PassingField(chains, query, env, jp);
      assert RuleHolds(PageRule.rule, query["page"], env);
      ToIntOfIntText(query["page"], env);
    }
    if "limit" in query {
      PassingField(chains, query, env, jl);
      assert RuleHolds(LimitRule.rule, query["limit"], env);
      ToIntOfIntText(query["limit"], env);
    }
  }

  /** A page or limit the client sent that is not such a text is reported with the chain's message. */
  lemma PagingRejected(chains: seq<Chain>, query: Fields, env: Builtins, jp: nat, jl: nat)
    requires DistinctFields(chains) && jp < |chains| && jl < |chains|
    requires chains[jp] == PageChain && chains[jl] == LimitChain
    ensures "page" in query && !PageText(query["page"]) ==> (Validate(chains, query, env).Err?
      && FieldError("page", PageMessage) in Validate(chains, query, env).error.cls.errors)
    ensures "limit" in query && !LimitText(query["limit"]) ==> (Validate(chains, query, env).Err?
      && FieldError("limit", LimitMessage) in Validate(chains, query, env).error.cls.errors)
  {
    if "page" in query && !PageText(query["page"]) {
      assert ValueAt(PageChain.steps, 0, Some(query["page"]), env) == Some(query["page"]);
      FailingFieldReported(chains, query, env, jp, 0);
    }
    if "limit" in query && !LimitText(query["limit"]) {
      assert ValueAt(LimitChain.steps, 0, Some(query["limit"]), env) == Some(query["limit"]);
      FailingFieldReported(chains, query, env, jl, 0);
    }
  }

  /** The pagination schema accepts a query exactly when each of page and limit is absent or a valid text. */
  lemma PaginationDecides(query: Fields, env: Builtins)
    ensures Validate(PaginationRules, query, env).Ok? <==>
      ("page" in query ==> PageText(query["page"])) && ("limit" in query ==> LimitText(query["limit"]))
  {
    var R := PaginationRules;
    assert DistinctFields(R);
    if Validate(R, query, env).Ok? {
      PagingFields(R, query, env, 0, 1);
    } else {
      if ("page" in query ==> PageText(query["page"])) && ("limit" in query ==> LimitText(query["limit"])) {
        PageChainPasses(query, env);
        LimitChainPasses(RunChain(PageChain, query, env).1, env);
        assert Get(RunChain(PageChain, query, env).1, "limit") == Get(query, "limit");
        assert RequestBefore(R, 1, query, env) == RunChain(PageChain, query, env).1;
        ChainsPassSchemaPasses(R, query, env);
        assert false;
      }
      PagingRejected(R, query, env, 0, 1);
    }
  }

  lemma PageChainPasses(query: Fields, env: Builtins)
    requires "page" in query ==> PageText(query["page"])
    ensures RunChain(PageChain, query, env).0 == []
  {
    if "page" in query {
      assert ValueAt(PageChain.steps, 0, Some(query["page"]), env) == Some(query["page"]);
      assert StepsPass(PageChain.steps, Some(query["page"]), query, env);
    }
    ChainPasses(PageChain, query, env);
  }

  lemma LimitChainPasses(query: Fields, env: Builtins)
    requires "limit" in query ==> LimitText(query["limit"])
    ensures RunChain(LimitChain, query, env).0 == []
  {
    if "limit" in query {
      assert ValueAt(LimitChain.steps, 0, Some(query["limit"]), env) == Some(query["limit"]);
      assert StepsPass(LimitChain.steps, Some(query["limit"]), query, env);
    }
    ChainPasses(LimitChain, query, env);
  }
}
