/** agents/graph.py: the query-understanding graph. INTENT_CHECK runs first;
    its `should_refuse` routes to REWRITE or REFUSE, and either ends the run.
    The graph library's bookkeeping is modelled only as far as this graph uses
    it: a node's returned keys overwrite the state's, and a key the state
    schema has no channel for is dropped. */
module Graph {
  import opened Base
  import opened JsonUtil
  import opened AgentState
  import opened Refusal
  import opened IntentCheck
  import opened Rewrite

  datatype Node = IntentCheckStep | RewriteStep | RefuseStep | End

  /** `route_after_intent(state)`. */
  function RouteAfterIntent(s: QueryState): (r: Result<Node>)
    ensures r.Err? <==> s.shouldRefuse.None?
    ensures r.Err? ==> r.fault == KeyError("should_refuse")
    ensures r.Ok? ==> (r.value == RefuseStep <==> s.shouldRefuse == Some(true))
    ensures r.Ok? ==> r.value in {RefuseStep, RewriteStep}
  {
    var refuse :- ShouldRefuse(s);
    if refuse then Ok(RefuseStep) else Ok(RewriteStep)
  }

  /** `f"{reason}"`: a string is inserted as it is, `None` and the booleans
      as Python spells them; other values go through `show`. */
  function Format(j: Json, show: Json -> string): string {
    match j
    case JStr(s) => s
    case JNull => "None"
    case JBool(b) => if b then "True" else "False"
    case _ => show(j)
  }

  /** `refuse_node(state)`: a state holding only the final answer. */
  function RefuseNode(s: QueryState, show: Json -> string): (r: Result<QueryState>)
    ensures r.Err? <==> s.intentReason.None?
    ensures r.Err? ==> r.fault == KeyError("intent_reason")
    ensures r.Ok? ==> && r.value.finalAnswer.Some?
                      && r.value.(finalAnswer := None) == Empty
                      && r.value.finalAnswer.value == Message(Format(s.intentReason.value, show))
  {
    match s.intentReason
    case None => Err(KeyError("intent_reason"))
    case Some(reason) =>
      Ok(Empty.(finalAnswer := Some(Message(Format(reason, show)))))
  }

  /** One finished run: the nodes visited and the final state. */
  datatype Run = Run(path: seq<Node>, state: QueryState)

  /** The channels a compiled graph has for the refusal node's one key.
      `StateGraph(QueryState)` takes its channels from the `QueryState` of
      agents/state.py, which has no `final_answer`. */
  datatype Schema = QueryStateSchema | WithFinalAnswer

  /** Writing a node's update into the state: keys without a channel are dropped. */
  function WriteRefusal(s: QueryState, update: QueryState, schema: Schema): QueryState {
    match schema
    case QueryStateSchema => s
    case WithFinalAnswer => s.(finalAnswer := update.finalAnswer)
  }

  /** The compiled graph over `schema`, invoked with `{"user_query": query}`. */
  function RunOn(schema: Schema, query: string, llm: Prompt -> string, loads: string -> Option<Json>,
                 show: Json -> string): (r: Result<Run>)
    ensures r.Ok? ==> |r.value.path| == 3 && r.value.path[0] == IntentCheckStep && r.value.path[2] == End
    ensures r.Ok? ==> r.value.path[1] in {RewriteStep, RefuseStep}
  {
    var checked :- IntentCheckNode(Start(query), llm, loads);
    // The intent check keeps the query and always sets `intent`,
    // `should_refuse` and `intent_reason`, so no later node can raise.
    match RouteAfterIntent(checked)
    case Err(f) => assert false; Err(f)
    case Ok(next) =>
      if next == RefuseStep then
        match RefuseNode(checked, show)
        case Err(f) => assert false; Err(f)
        case Ok(refused) => Ok(Run([IntentCheckStep, RefuseStep, End], WriteRefusal(checked, refused, schema)))
      else
        match RewriteNode(checked, llm, loads)
        case Err(f) => assert false; Err(f)
        case Ok(rewritten) => Ok(Run([IntentCheckStep, RewriteStep, End], rewritten))
  }

  /** `build_query_understanding_graph().invoke({"user_query": query})`, as
      written: the refusal node's `final_answer` has no channel and is dropped,
      so a refused run returns the intent-checked state. */
  function RunGraph(query: string, llm: Prompt -> string, loads: string -> Option<Json>,
                    show: Json -> string): (r: Result<Run>)
    ensures r.Ok? ==> |r.value.path| == 3 && r.value.path[0] == IntentCheckStep && r.value.path[2] == End
    ensures r.Ok? ==> r.value.path[1] in {RewriteStep, RefuseStep}
    ensures r.Ok? ==> r.value.state.userQuery == Some(query)
    ensures r.Ok? && r.value.path[1] == RefuseStep ==>
              && IntentCheckNode(Start(query), llm, loads).Ok?
              && r.value.state == IntentCheckNode(Start(query), llm, loads).value
              && r.value.state.finalAnswer.None?
  {
    RunOn(QueryStateSchema, query, llm, loads, show)
  }

  /** The graph as evidently intended, with a `final_answer` channel: the
      refusal message reaches the caller. */
  function RunGraphWithAnswer(query: string, llm: Prompt -> string, loads: string -> Option<Json>,
                              show: Json -> string): (r: Result<Run>)
    ensures r.Ok? ==> |r.value.path| == 3 && r.value.path[0] == IntentCheckStep && r.value.path[2] == End
    ensures r.Ok? ==> r.value.path[1] in {RewriteStep, RefuseStep}
    ensures r.Ok? ==> r.value.state.userQuery == Some(query)
    ensures r.Ok? && r.value.path[1] == RefuseStep ==>
              && IntentCheckNode(Start(query), llm, loads).Ok?
              && r.value.state.(finalAnswer := None) == IntentCheckNode(Start(query), llm, loads).value
              && r.value.state.finalAnswer.Some?
  {
    RunOn(WithFinalAnswer, query, llm, loads, show)
  }

  /** The classified intent's reply, decoded, for a run on `query`. */
  function Classified(query: string, llm: Prompt -> string, loads: string -> Option<Json>): Result<Json> {
    ExtractJson(llm(IntentPrompt(query)), loads)
  }

  /** A run fails only when the intent reply decodes to something that is not a
      dict; every other run reaches END. */
  lemma RunFailsIff(query: string, llm: Prompt -> string, loads: string -> Option<Json>, show: Json -> string)
    ensures var d := Classified(query, llm, loads);
      RunGraph(query, llm, loads, show).Err? <==> d.Ok? && !d.value.JObj?
  {
    var s := Start(query);
    var c := IntentCheckNode(s, llm, loads);
    assert s.userQuery == Some(query);
    if Classified(query, llm, loads).Ok? && Classified(query, llm, loads).value.JObj? {
      NonObjectRaises(s, llm, loads);
    } else if Classified(query, llm, loads).Err? {
      ParseFailureFallsBack(s, llm, loads);
    } else {
      NonObjectRaises(s, llm, loads);
    }
  }

  /** A run as written is refused exactly when the intent is "unanswerable"; a
      refused run carries neither a final answer nor rewrites, an accepted one
      the rewrites and no final answer. */
  lemma RunOutcome(query: string, llm: Prompt -> string, loads: string -> Option<Json>, show: Json -> string)
    requires RunGraph(query, llm, loads, show).Ok?
    ensures var run := RunGraph(query, llm, loads, show).value;
      && (run.path[1] == RefuseStep <==> run.state.intent == Some("unanswerable"))
      && (run.path[1] == RefuseStep ==>
            && run.state.finalAnswer.None?
            && run.state.rewrittenQueries.None?)
      && (run.path[1] == RewriteStep ==>
            && run.state.finalAnswer.None?
            && run.state.rewrittenQueries.Some?
            && run.state.rewrittenQueries.value.original == JStr(query))
  {
  }

  /** With a `final_answer` channel, a refused run carries the refusal message
      built from the intent reason, and an accepted run is as before. */
  lemma RunOutcomeWithAnswer(query: string, llm: Prompt -> string, loads: string -> Option<Json>,
                             show: Json -> string)
    requires RunGraphWithAnswer(query, llm, loads, show).Ok?
    ensures var run := RunGraphWithAnswer(query, llm, loads, show).value;
      && (run.path[1] == RefuseStep <==> run.state.intent == Some("unanswerable"))
      && (run.path[1] == RefuseStep ==>
            && run.state.finalAnswer == Some(Message(Format(run.state.intentReason.value, show)))
            && run.state.rewrittenQueries.None?)
      && (run.path[1] == RewriteStep ==>
            && run.state.finalAnswer.None?
            && run.state.rewrittenQueries.Some?
            && run.state.rewrittenQueries.value.original == JStr(query))
  {
  }

  /** The two graphs fail on the same inputs and take the same path; they
      differ only in a refused run's `final_answer`, which the graph as written
      loses. */
  lemma RefusalDropped(query: string, llm: Prompt -> string, loads: string -> Option<Json>, show: Json -> string)
    ensures RunGraph(query, llm, loads, show).Ok? <==> RunGraphWithAnswer(query, llm, loads, show).Ok?
    ensures RunGraph(query, llm, loads, show).Ok? ==>
      var run, fixed := RunGraph(query, llm, loads, show).value, RunGraphWithAnswer(query, llm, loads, show).value;
      && run.path == fixed.path
      && run.state == fixed.state.(finalAnswer := None)
      && (run.path[1] == RefuseStep <==> run.state.finalAnswer != fixed.state.finalAnswer)
  {
  }

  /** A reply of `{}` is a dict without an intent, so the query is refused;
      the graph as written returns no message, the intended one "Reason: ". */
  lemma RefusalDroppedExample()
    ensures var llm, loads, show := (p: Prompt) => "{}", (t: string) => Some(JObj(map[])), (j: Json) => "";
      && RunGraph("q", llm, loads, show).Ok?
      && RunGraph("q", llm, loads, show).value.path[1] == RefuseStep
      && RunGraph("q", llm, loads, show).value.state.finalAnswer.None?
      && RunGraphWithAnswer("q", llm, loads, show).value.state.finalAnswer == Some(Message(""))
  {
    var llm, loads, show := (p: Prompt) => "{}", (t: string) => Some(JObj(map[])), (j: Json) => "";
    var text := llm(IntentPrompt("q"));
    assert text == "{}" && text[0..2] == text;
    FirstIndexAt(text, '{', 0);
    LastIndexAt(text, '}', 1);
    assert Span(text) == Some("{}");
  }
}
