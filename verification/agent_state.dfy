/** The agents' shared state dict. Each key is `None` while absent and `Some`
    once present; a key whose value may itself be Python's `None` holds an
    `Option` inside. A node's `{**state, key: value}` is a field update, so
    every key it does not name keeps its value. */
module AgentState {
  import opened Base
  import opened JsonUtil

  /** One entry of `retrieved_chunks`: `{"chunk_id": ..., "source": ...}`. */
  datatype ChunkRef = ChunkRef(chunkId: string, source: string)

  /** A chunk row as the chunk store returns it: its id and its cleaned text. */
  datatype Chunk = Chunk(chunkId: string, text: string)

  /** `retrieval_failure_reason`, one per admission gate. */
  datatype FailureReason =
    | EmptyContext
    | WeakRetrieval
    | LowRecall
    | PartialRelevance
    | InsufficientContext
    | ConflictingSources

  /** `rewritten_queries`: each alternative is a decoded JSON value, `JNull` for
      Python's `None`. */
  datatype Rewrites = Rewrites(original: Json, keywordExpansion: Json, hyde: Json, subQuestions: Json)

  /** `rewrite_risk`. */
  datatype RiskFlags = RiskFlags(recallBoost: bool, precisionRisk: bool)

  /** What a node asks the language model; the prompt wording is not modelled,
      only what each prompt is built from. */
  datatype Prompt =
    | IntentPrompt(query: string)
    | FactualPrompt(query: string)
    | AnalyticalPrompt(query: string)
    | MultiHopPrompt(query: string)
    | AnswerPrompt(query: string, context: string)

  datatype QueryState = QueryState(
    userQuery: Option<string>,
    queryEmbedding: Option<Option<seq<real>>>,
    intent: Option<string>,
    intentConfidence: Option<Json>,
    intentReason: Option<Json>,
    shouldRefuse: Option<bool>,
    rewrittenQueries: Option<Rewrites>,
    rewriteRisk: Option<RiskFlags>,
    retrievedChunks: Option<seq<ChunkRef>>,
    retrievalScores: Option<seq<real>>,
    topK: Option<int>,
    retrievalValid: Option<bool>,
    retrievalFailureReason: Option<Option<FailureReason>>,
    answerText: Option<Option<string>>,
    answerCitations: Option<seq<string>>,
    answerSupported: Option<bool>,
    finalAnswer: Option<string>)

  /** `{}`: a state with no keys. */
  const Empty: QueryState := QueryState(None, None, None, None, None, None, None, None,
                                        None, None, None, None, None, None, None, None, None)

  /** `{"user_query": query}`, how a run starts. */
  function Start(query: string): (s: QueryState)
    ensures s.userQuery == Some(query)
    ensures s.(userQuery := None) == Empty
  {
    Empty.(userQuery := Some(query))
  }

  /** `state[key]` for `user_query`. */
  function UserQuery(s: QueryState): (r: Result<string>)
    ensures r.Ok? <==> s.userQuery.Some?
    ensures r.Ok? ==> r.value == s.userQuery.value
    ensures r.Err? ==> r.fault == KeyError("user_query")
  {
    match s.userQuery
    case Some(q) => Ok(q)
    case None => Err(KeyError("user_query"))
  }

  /** `chunk_retriever.get(chunk_id)`: the store's row, or the not-found error. */
  function FetchChunk(fetch: string -> Option<Chunk>, chunkId: string): (r: Result<Chunk>)
    ensures r.Ok? <==> fetch(chunkId).Some?
    ensures r.Ok? ==> r.value == fetch(chunkId).value
    ensures r.Err? ==> r.fault == ChunkNotFound(chunkId)
  {
    match fetch(chunkId)
    case Some(c) => Ok(c)
    case None => Err(ChunkNotFound(chunkId))
  }
}
