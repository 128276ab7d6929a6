/** agents/query_understanding/rewrite.py: rewriting the query for retrieval
    according to its intent, with two risk flags for the later stages. The
    language model is the parameter `llm` and `json.loads` the parameter
    `loads`. */
module Rewrite {
  import opened Base
  import opened JsonUtil
  import opened AgentState

  /** The rewrites before any intent-specific step: only the original query. */
  function DefaultRewrites(query: string): Rewrites {
    Rewrites(JStr(query), JNull, JNull, JNull)
  }

  const NoRisk: RiskFlags := RiskFlags(false, false)

  /** `state[key]` for `should_refuse` and `intent`. */
  function ShouldRefuse(s: QueryState): (r: Result<bool>)
    ensures r.Ok? <==> s.shouldRefuse.Some?
    ensures r.Ok? ==> r.value == s.shouldRefuse.value
    ensures r.Err? ==> r.fault == KeyError("should_refuse")
  {
    match s.shouldRefuse
    case Some(b) => Ok(b)
    case None => Err(KeyError("should_refuse"))
  }

  function Intent(s: QueryState): (r: Result<string>)
    ensures r.Ok? <==> s.intent.Some?
    ensures r.Ok? ==> r.value == s.intent.value
    ensures r.Err? ==> r.fault == KeyError("intent")
  {
    match s.intent
    case Some(i) => Ok(i)
    case None => Err(KeyError("intent"))
  }

  /** The factual branch: one keyword expansion, recall boosted. A reply that
      does not decode, or lacks the key, leaves the defaults. */
  function Factual(query: string, reply: string, loads: string -> Option<Json>): (Rewrites, RiskFlags) {
    var rw := DefaultRewrites(query);
    match loads(reply)
    case None => (rw, NoRisk)
    case Some(data) =>
      match Index(data, "expanded_query")
      case Err(_) => (rw, NoRisk)
      case Ok(e) => (rw.(keywordExpansion := e), RiskFlags(true, false))
  }

  /** The analytical branch: an expansion and a hypothetical answer, both flags
      raised. The expansion is assigned before the answer is looked up, so a
      reply with the expansion but no `hyde` keeps the expansion and no flag. */
  function Analytical(query: string, reply: string, loads: string -> Option<Json>): (Rewrites, RiskFlags) {
    var rw := DefaultRewrites(query);
    match loads(reply)
    case None => (rw, NoRisk)
    case Some(data) =>
      match Index(data, "expanded_query")
      case Err(_) => (rw, NoRisk)
      case Ok(e) =>
        var expanded := rw.(keywordExpansion := e);
        match Index(data, "hyde")
        case Err(_) => (expanded, NoRisk)
        case Ok(h) => (expanded.(hyde := h), RiskFlags(true, true))
  }

  /** The multi-hop branch: sub-questions, both flags raised. */
  function MultiHop(query: string, reply: string, loads: string -> Option<Json>): (Rewrites, RiskFlags) {
    var rw := DefaultRewrites(query);
    match loads(reply)
    case None => (rw, NoRisk)
    case Some(data) =>
      match Index(data, "sub_questions")
      case Err(_) => (rw, NoRisk)
      case Ok(q) => (rw.(subQuestions := q), RiskFlags(true, true))
  }

  /** The rewrites and flags for one intent; the model is asked only for the
      three intents that need it. */
  function RewriteFor(intent: string, query: string, llm: Prompt -> string, loads: string -> Option<Json>)
    : (r: (Rewrites, RiskFlags))
    ensures r.0.original == JStr(query)
  {
    if intent == "factual" then Factual(query, llm(FactualPrompt(query)), loads)
    else if intent == "analytical" then Analytical(query, llm(AnalyticalPrompt(query)), loads)
    else if intent == "multi_hop" then MultiHop(query, llm(MultiHopPrompt(query)), loads)
    else if intent == "unknown" then
      (DefaultRewrites(query).(keywordExpansion := JStr(query)), RiskFlags(false, true))
    else (DefaultRewrites(query), NoRisk)
  }

  /** `rewrite_node(state)`. */
  function RewriteNode(s: QueryState, llm: Prompt -> string, loads: string -> Option<Json>)
    : (r: Result<QueryState>)
    ensures s.shouldRefuse == Some(true) ==> r == Ok(s)
    ensures s.shouldRefuse.None? ==> r == Err(KeyError("should_refuse"))
    ensures s.shouldRefuse == Some(false) ==>
              (r.Ok? <==> s.userQuery.Some? && s.intent.Some?)
    ensures r.Ok? && s.shouldRefuse == Some(false) ==>
              && r.value.rewrittenQueries.Some?
              && r.value.rewrittenQueries.value.original == JStr(s.userQuery.value)
              && r.value.rewriteRisk.Some?
              && r.value.(rewrittenQueries := s.rewrittenQueries, rewriteRisk := s.rewriteRisk) == s
  {
    var refuse :- ShouldRefuse(s);
    if refuse then Ok(s)
    else
      var query :- UserQuery(s);
      var intent :- Intent(s);
      var (rewrites, risk) := RewriteFor(intent, query, llm, loads);
      Ok(s.(rewrittenQueries := Some(rewrites), rewriteRisk := Some(risk)))
  }

  /** The "unknown" fallback repeats the query as its expansion, raises only the
      precision flag, and never consults the model. */
  lemma UnknownFallback(query: string, llm1: Prompt -> string, llm2: Prompt -> string,
                        loads: string -> Option<Json>)
    ensures var r := RewriteFor("unknown", query, llm1, loads);
      && r == RewriteFor("unknown", query, llm2, loads)
      && r.0 == Rewrites(JStr(query), JStr(query), JNull, JNull)
      && r.1 == RiskFlags(false, true)
  {
  }

  /** An intent outside the four handled ones leaves the defaults and no flag. */
  lemma OtherIntentDefaults(intent: string, query: string, llm: Prompt -> string, loads: string -> Option<Json>)
    requires intent !in {"factual", "analytical", "multi_hop", "unknown"}
    ensures RewriteFor(intent, query, llm, loads) == (DefaultRewrites(query), NoRisk)
  {
  }

  /** A factual reply decoding to a dict with `expanded_query` sets only the
      expansion and boosts recall; any other reply leaves the defaults. */
  lemma FactualOutcome(query: string, llm: Prompt -> string, loads: string -> Option<Json>)
    ensures var reply := loads(llm(FactualPrompt(query)));
      var r := RewriteFor("factual", query, llm, loads);
      if reply.Some? && reply.value.JObj? && "expanded_query" in reply.value.fields then
        r == (DefaultRewrites(query).(keywordExpansion := reply.value.fields["expanded_query"]),
              RiskFlags(true, false))
      else r == (DefaultRewrites(query), NoRisk)
  {
  }

  /** The analytical branch has three outcomes: both keys give both rewrites
      and both flags; the expansion alone is kept without flags (the partial
      assignment); otherwise the defaults. */
  lemma AnalyticalOutcome(query: string, llm: Prompt -> string, loads: string -> Option<Json>)
    ensures var reply := loads(llm(AnalyticalPrompt(query)));
      var r := RewriteFor("analytical", query, llm, loads);
      if reply.Some? && reply.value.JObj? && "expanded_query" in reply.value.fields then
        var f := reply.value.fields;
        if "hyde" in f then
          r == (DefaultRewrites(query).(keywordExpansion := f["expanded_query"], hyde := f["hyde"]),
                RiskFlags(true, true))
        else
          r == (DefaultRewrites(query).(keywordExpansion := f["expanded_query"]), NoRisk)
      else r == (DefaultRewrites(query), NoRisk)
  {
  }

  /** A multi-hop reply with `sub_questions` sets them and both flags. */
  lemma MultiHopOutcome(query: string, llm: Prompt -> string, loads: string -> Option<Json>)
    ensures var reply := loads(llm(MultiHopPrompt(query)));
      var r := RewriteFor("multi_hop", query, llm, loads);
      if reply.Some? && reply.value.JObj? && "sub_questions" in reply.value.fields then
        r == (DefaultRewrites(query).(subQuestions := reply.value.fields["sub_questions"]),
              RiskFlags(true, true))
      else r == (DefaultRewrites(query), NoRisk)
  {
  }

  /** What the flags reveal: recall is boosted only after a model reply was
      fully used, and precision is at risk only for the intents that broaden
      the query. */
  lemma FlagsMeaning(intent: string, query: string, llm: Prompt -> string, loads: string -> Option<Json>)
    ensures var r := RewriteFor(intent, query, llm, loads);
      && (r.1.recallBoost ==> intent in {"factual", "analytical", "multi_hop"})
      && (r.1.precisionRisk ==> intent in {"analytical", "multi_hop", "unknown"})
      && (r.1 == NoRisk ==> r.0.hyde == JNull && r.0.subQuestions == JNull)
  {
  }
}
