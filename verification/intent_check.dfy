/** agents/query_understanding/intent_check.py: classifying the query's intent.
    The language model is the parameter `llm` and `json.loads` the parameter
    `loads`; what is modelled is how the node reads the model's reply. */
module IntentCheck {
  import opened Base
  import opened JsonUtil
  import opened AgentState

  /** `INTENT_LABELS`: the four labels the model is offered, plus "unknown". */
  const IntentLabels: seq<string> := ["factual", "analytical", "multi_hop", "unanswerable", "unknown"]

  /** The reason recorded when the reply holds no decodable JSON object. */
  const ParseFailureReason: string := "Intent classification failed (invalid model output)"

  /** A parsed `intent` value the node keeps as it is. */
  predicate IsLabel(j: Json) {
    j.JStr? && j.s in IntentLabels
  }

  /** `if intent not in INTENT_LABELS: intent = "unanswerable"`, where a missing
      key has already become `None`. */
  function NormaliseIntent(j: Json): (name: string)
    ensures name in IntentLabels
    ensures IsLabel(j) ==> JStr(name) == j
    ensures !IsLabel(j) ==> name == "unanswerable"
  {
    if IsLabel(j) then j.s else "unanswerable"
  }

  /** The state after a reply with no decodable JSON object. */
  function FailedParse(s: QueryState): QueryState {
    s.(intent := Some("unknown"), intentConfidence := Some(JNum(0.0)),
       intentReason := Some(JStr(ParseFailureReason)), shouldRefuse := Some(false))
  }

  /** `intent_check_node(state)`. Only the decoding in `extract_json` is
      guarded; `.get` on a decoded value that is not a dict raises. */
  function IntentCheckNode(s: QueryState, llm: Prompt -> string, loads: string -> Option<Json>)
    : (r: Result<QueryState>)
    ensures s.userQuery.None? ==> r == Err(KeyError("user_query"))
    ensures r.Ok? ==> && r.value.intent.Some? && r.value.intent.value in IntentLabels
                      && r.value.shouldRefuse == Some(r.value.intent.value == "unanswerable")
                      && r.value.intentConfidence.Some? && r.value.intentReason.Some?
    ensures r.Ok? ==> r.value.(intent := s.intent, intentConfidence := s.intentConfidence,
                               intentReason := s.intentReason, shouldRefuse := s.shouldRefuse) == s
  {
    var query :- UserQuery(s);
    var reply := llm(IntentPrompt(query));
    match ExtractJson(reply, loads)
    case Err(_) => Ok(FailedParse(s))
    case Ok(parsed) =>
      // The first `.get` raises for a non-dict; the later two then cannot.
      var raw :- Get(parsed, "intent", JNull);
      var name := NormaliseIntent(raw);
      var confidence := Lookup(parsed.fields, "confidence", JNum(0.5));
      var reason := Lookup(parsed.fields, "reason", JStr(""));
      Ok(s.(intent := Some(name), intentConfidence := Some(confidence),
            intentReason := Some(reason), shouldRefuse := Some(name == "unanswerable")))
  }

  /** The reply the node decodes for a state that has a query. */
  function Decoded(s: QueryState, llm: Prompt -> string, loads: string -> Option<Json>): Result<Json>
    requires s.userQuery.Some?
  {
    ExtractJson(llm(IntentPrompt(s.userQuery.value)), loads)
  }

  /** A reply without a decodable object falls back to "unknown" with zero
      confidence and the fixed reason, and does not refuse. */
  lemma ParseFailureFallsBack(s: QueryState, llm: Prompt -> string, loads: string -> Option<Json>)
    requires s.userQuery.Some? && Decoded(s, llm, loads).Err?
    ensures var r := IntentCheckNode(s, llm, loads);
      && r.Ok?
      && r.value.intent == Some("unknown")
      && r.value.intentConfidence == Some(JNum(0.0))
      && r.value.intentReason == Some(JStr(ParseFailureReason))
      && r.value.shouldRefuse == Some(false)
  {
  }

  /** The node raises after a successful parse exactly when the decoded value
      is not a dict. */
  lemma NonObjectRaises(s: QueryState, llm: Prompt -> string, loads: string -> Option<Json>)
    requires s.userQuery.Some? && Decoded(s, llm, loads).Ok?
    ensures IntentCheckNode(s, llm, loads).Err? <==> !Decoded(s, llm, loads).value.JObj?
  {
  }

  /** For a decoded dict: a recognised label is kept, anything else (a missing
      key, another string, a non-string) becomes "unanswerable"; the confidence
      and reason default to 0.5 and "" when absent. */
  lemma ParsedObject(s: QueryState, llm: Prompt -> string, loads: string -> Option<Json>)
    requires s.userQuery.Some? && Decoded(s, llm, loads).Ok? && Decoded(s, llm, loads).value.JObj?
    ensures var fields := Decoded(s, llm, loads).value.fields;
      var r := IntentCheckNode(s, llm, loads);
      && r.Ok?
      && ("intent" in fields && IsLabel(fields["intent"]) ==> JStr(r.value.intent.value) == fields["intent"])
      && (!("intent" in fields && IsLabel(fields["intent"])) ==> r.value.intent == Some("unanswerable"))
      && r.value.intentConfidence == Some(if "confidence" in fields then fields["confidence"] else JNum(0.5))
      && r.value.intentReason == Some(if "reason" in fields then fields["reason"] else JStr(""))
  {
  }

  /** The node refuses exactly when the model's reply decodes to a dict whose
      intent is "unanswerable" or not a recognised label; in particular a
      model-returned "unknown" is kept and answered. */
  lemma RefusesIff(s: QueryState, llm: Prompt -> string, loads: string -> Option<Json>)
    requires IntentCheckNode(s, llm, loads).Ok?
    ensures var d := Decoded(s, llm, loads);
      (IntentCheckNode(s, llm, loads).value.shouldRefuse == Some(true)) <==>
        (&& d.Ok? && d.value.JObj?
         && ("intent" in d.value.fields ==>
               !IsLabel(d.value.fields["intent"]) || d.value.fields["intent"] == JStr("unanswerable")))
  {
  }
}
