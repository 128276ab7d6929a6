# Enterprise RAG core in Dafny

This project models the deterministic core of an enterprise retrieval-augmented
question-answering system. That core includes:

- the two indexes: an Okapi BM25 lexical store and a flat inner-product vector
  store with its chunk-id map;
- dense and sparse score tagging, and the weighted hybrid fusion;
- the retrieval node, the six-gate retrieval admission check, and the
  evidence-packing answer node;
- the ingestion filters: text cleaning, the table-embedding gate, element-type
  dispatch, and element loading with chunk-id construction;
- the query-understanding graph: intent normalisation, the per-intent rewrite
  table, JSON extraction, routing, and the refusal message.

Every piece is a pure function over immutable datatypes. External calls are
function parameters:

- the language model (`llm`) and `json.loads` (`loads`);
- the text and image embedders;
- the chunk store lookup (`fetch`);
- the natural logarithm of the BM25 idf (`ln`) and the reciprocal vector norm
  (`scale`);
- the generators of document ids and image names.

Python exceptions are values of a `Fault` datatype inside a `Result`.

One module per source file: `Bm25`, `VectorStore`, `RetrievalSignal`,
`HybridFusion`, `RetrievalPipeline`, `Retrieve`, `RetrievalValidation`,
`Answer`, `Clean`, `EmbedFunc`, `Ingest`, `Load`, `IntentCheck`, `Rewrite`,
`JsonUtil`, `Graph` and `Refusal`. Shared modules:

- `Base`: `Option`, `Result`, `Fault`, and `PyTake` for Python's `xs[:k]`.
- `Chars`: the string methods, as ASCII approximations.
- `Ranking`: Python's stable `sorted(..., reverse=True)`.
- `AgentState`: the graph state. Every key is optional, because a key can be
  absent.

## Model

| member | source | states |
|---|---|---|
| Bm25.Tokenize | storage/bm25_store.py:81-85 | every token is a non-empty, alphanumeric, lower-case word of the lower-cased text, and the tokens keep their order (a subsequence of the whitespace split) |
| Bm25.TokenizeAtSpace | storage/bm25_store.py:81-85 | tokenizing two texts joined by whitespace gives the concatenation of their tokens |
| Bm25.TokenizeWord | storage/bm25_store.py:83-84 | a single word is kept, lower-cased, exactly when it is alphanumeric, and dropped otherwise |
| Bm25.Init | storage/bm25_store.py:8-16 | a new index is empty, with N = 0 and avgdl = 0, and satisfies the store invariant |
| Bm25.Add | storage/bm25_store.py:21-34 | k1 and b never change. Text without tokens leaves the index unchanged. Otherwise N grows by exactly one, and the document and its length are (over)written. The df of each distinct token grows by one and every other df is unchanged. A new id is appended to the insertion order. avgdl is the total length divided by N. The invariant is kept |
| Bm25.Count | storage/bm25_store.py:47 | a term's frequency is its multiplicity among the tokens, as `Counter(tokens)[term]` gives it. It is positive exactly when the term occurs, and never exceeds the token count |
| Bm25.Search | storage/bm25_store.py:39-72 | an empty query, an empty index or a query without tokens gives []. Otherwise exactly min(top_k, number of positively scoring chunks) hits, with Python's slice length for a negative top_k, sorted by score, best first. Every hit has a positive score equal to its BM25 score and contains a query token |
| Bm25.SearchBest | storage/bm25_store.py:46-64 | truncation keeps the best: every positively scoring document is either returned with its score or outscored by every returned hit |
| Bm25.SearchComplete | storage/bm25_store.py:46-64 | when fewer than top_k hits come back, every positively scoring document is among them with its score |
| Bm25.SearchTiesInInsertionOrder | storage/bm25_store.py:64 | hits with equal scores appear in the documents' insertion order (stable sort) |
| Bm25.DocScoreAppend | storage/bm25_store.py:50-59 | query terms contribute independently, so a term repeated in the query counts once per occurrence |
| Bm25.DocScoreWithoutMatch | storage/bm25_store.py:50-52 | a document containing none of the query terms scores 0 |
| Bm25.CandidatesComplete | storage/bm25_store.py:46-62 | every document with a positive score becomes a candidate with that score |
| Bm25.RankedHit | storage/bm25_store.py:61-64 | a ranked entry is a stored chunk with its own positive score that contains a query term |
| VectorStore.Init | storage/vector_store.py:6-9 | a new store has the given dimension and an empty id map |
| VectorStore.NormalizeScalesDot | storage/vector_store.py:14-15 | normalising a vector multiplies its inner product with any vector by the one factor `scale(v)`, so a positive factor keeps the order of similarities |
| VectorStore.NormalizeUnit | storage/vector_store.py:14-15 | when `scale(v)` is the reciprocal of the L2 norm of `v`, the normalised vector has unit length |
| VectorStore.NormalizedScore | storage/vector_store.py:14-29 | a stored row's score against a query, both normalised, is their raw inner product times both reciprocal norms: the cosine similarity |
| VectorStore.Add | storage/vector_store.py:11-19 | metadata without chunk_id fails before any change, and so does a vector of the wrong dimension. Otherwise exactly one normalised vector and one id are appended, so vectors and ids stay in lock step |
| VectorStore.AddAllInOrder | storage/vector_store.py:11-19 | adding well-formed items one by one keeps the earlier ids and vectors and appends item i's id and vector at row \|old\| + i |
| VectorStore.Similarities | storage/vector_store.py:29 | row i of the flat index scores the inner product of the query with stored vector i |
| VectorStore.Search | storage/vector_store.py:21-39 | an empty store gives []. A query of the wrong dimension and k <= 0 raise. Otherwise min(top_k, ntotal) hits, best first, each naming some row's id with that row's inner product against the normalised query |
| VectorStore.SearchBest | storage/vector_store.py:29-38 | every stored row is either returned with its similarity or outscored by every returned hit |
| VectorStore.TopBest | storage/vector_store.py:29 | the index's top-k rows: any row left out scores no higher than any row kept |
| VectorStore.SearchHits | storage/vector_store.py:29-38 | after sentinels are dropped, min(k, ntotal) hits remain, sorted, each carrying its row's id and score |
| VectorStore.MapBackRows | storage/vector_store.py:31-38 | result slots that name rows map one-to-one onto id_map entries with their scores, in order |
| VectorStore.MapBackSentinels | storage/vector_store.py:33-34 | -1 sentinel slots produce no hits |
| VectorStore.AllChunkIds | storage/vector_store.py:41-42 | the returned set is exactly the set of elements of id_map |
| VectorStore.SearchWithinAllIds | storage/vector_store.py:36 | every hit's id is one of the ids get_all_chunk_ids reports |
| RetrievalSignal.TagDense | retrieval/retrieval_signal.py:8-16 | length, order and ids are kept, with dense = score and sparse = 0 |
| RetrievalSignal.TagSparse | retrieval/retrieval_signal.py:19-27 | length, order and ids are kept, with dense = 0 and sparse = score |
| RetrievalSignal.DenseRetrieve | retrieval/retrieval_signal.py:4-16 | a missing embedding gives []. Otherwise the vector search runs with top_k unchanged: its failure is passed on and its hits are tagged dense |
| RetrievalSignal.DenseWithinIndex | retrieval/retrieval_signal.py:8-16 | at most max(top_k, 0) dense signals, each naming an id of the vector index |
| RetrievalSignal.SparseRetrieve | retrieval/retrieval_signal.py:18-27 | the BM25 hits with top_k unchanged, tagged sparse. At most top_k of them, and [] for an empty query |
| RetrievalSignal.SparseDefaultEmpty | retrieval/retrieval_signal.py:18 | the default top_k = 0 always gives [] |
| HybridFusion.DedupFirst | retrieval/hybrid_fusion.py:9 | the ids without repeats, with the same set of ids |
| HybridFusion.Accumulate | retrieval/hybrid_fusion.py:8-15 | setdefault followed by += adds one signal's scores to its id's entry (starting from 0) and changes nothing else |
| HybridFusion.CombineKeys | retrieval/hybrid_fusion.py:7-13 | the merged dict's keys are the input ids in first-appearance order, dense list first |
| HybridFusion.CombineSums | retrieval/hybrid_fusion.py:14-15 | each id's dense and sparse scores are the sums over all its occurrences in both lists, and the dict holds exactly the ids that occur |
| HybridFusion.CombineDomain | retrieval/hybrid_fusion.py:7-13 | the merged dict holds exactly the ids that occur in either input |
| HybridFusion.FuseScored | retrieval/hybrid_fusion.py:17-24 | every fused entry carries its id's sums and score = 0.6 dense + 0.4 sparse |
| HybridFusion.Fusion | retrieval/hybrid_fusion.py:4-26 | a prefix of the full ranking. Its length is min(top_k, number of distinct ids) for top_k >= 0. It is sorted best first, every entry carries its sums and weighted score, and empty inputs give [] |
| HybridFusion.FusionExactlyOnce | retrieval/hybrid_fusion.py:5-25 | before truncation every id of either input occurs exactly once, and no other id occurs |
| HybridFusion.FusionDropsOnlyWorse | retrieval/hybrid_fusion.py:25-26 | no dropped entry outscores a kept one |
| HybridFusion.FusionTiesInFirstAppearance | retrieval/hybrid_fusion.py:7-25 | equal scores keep the ids' first-appearance order, dense list scanned first |
| HybridFusion.FusionIdsDistinct | retrieval/hybrid_fusion.py:17-26 | no chunk id is returned twice |
| RetrievalPipeline.Pipeline | retrieval/retrieval_pipeline.py:4-13 | the output echoes the query. Its results are the fusion of the dense and sparse signals, with the same top_k passed to all three stages and at most top_k results. It fails exactly when the dense search fails |
| RetrievalPipeline.PipelineProvenance | retrieval/retrieval_pipeline.py:5-8 | every fused result names a chunk of the vector index or of the BM25 index |
| RetrievalPipeline.PipelineLexicalOnly | retrieval/retrieval_pipeline.py:5-8 | without a query embedding the run cannot fail and every result is purely lexical: dense = 0 and score = 0.4 sparse |
| RetrievalPipeline.SparseWithinIndex | retrieval/retrieval_signal.py:19-27 | every sparse signal names a BM25 document |
| Retrieve.QueryEmbedding | agents/retrieve.py:11 | a missing query_embedding key raises KeyError |
| Retrieve.Refs | agents/retrieve.py:22-26 | one reference per fused entry, same id, source "hybrid" |
| Retrieve.Scores | agents/retrieve.py:27 | one score per fused entry, equal to its fused score |
| Retrieve.RetrieveNode | agents/retrieve.py:9-34 | a missing query or embedding raises. Otherwise the chunk and score lists are index-aligned with the fused ranking (at most 10 entries, source "hybrid") and top_k = 10. Every other key is kept |
| Retrieve.RetrieveRanked | agents/retrieve.py:17-27 | stored scores are best first and no chunk is listed twice |
| RetrievalValidation.EstimateRecall | agents/retrieval_validation.py:10-12 | len/k when k != 0 (as a product identity), 0 when k = 0 |
| RetrievalValidation.RelevantRatio | agents/retrieval_validation.py:14-16 | the fraction of scores >= 0.25, within [0, 1], and 0 for no scores |
| RetrievalValidation.RelevantRatioExtremes | agents/retrieval_validation.py:14-16 | all-strong scores give ratio 1 and all-weak scores give 0 |
| RetrievalValidation.ContextSufficientMonotone | agents/retrieval_validation.py:18-20 | adding chunks on either side never makes sufficient context insufficient |
| RetrievalValidation.HasConflictsIff | agents/retrieval_validation.py:22-28 | conflict holds iff two different all-digit tokens occur, so a single number repeated is no conflict |
| RetrievalValidation.LoadAll | agents/retrieval_validation.py:56-59 | loading succeeds iff every id is found, returning the chunks in order, and otherwise raises ChunkNotFound |
| RetrievalValidation.Validated | agents/retrieval_validation.py:58 | the first min(3, n) chunk references |
| RetrievalValidation.Reject | agents/retrieval_validation.py:39-67 | sets valid = false and the one reason, keeping every other key |
| RetrievalValidation.Admit | agents/retrieval_validation.py:70 | sets valid = true and reason None, keeping every other key |
| RetrievalValidation.ValidateNode | agents/retrieval_validation.py:31-70 | a missing query raises, and no chunks give empty_context. Chunks without scores raise ZeroDivisionError, and otherwise only a missing chunk can raise. valid is true iff the reason is None, and every other key is kept |
| RetrievalValidation.FirstFailure | agents/retrieval_validation.py:37-70 | the reported reason is a gate that fails; None means that no gate fails |
| RetrievalValidation.FirstFailureInOrder | agents/retrieval_validation.py:37-67 | the gates are tried in the fixed order empty, weak, recall, partial, insufficient, conflicting, and the first failure is the single reason |
| RetrievalValidation.ValidateIsFirstFailure | agents/retrieval_validation.py:31-70 | when the top three chunks load, the node reports exactly the first failing gate |
| RetrievalValidation.ScoreGatesNeedNoFetch | agents/retrieval_validation.py:38-53 | when the empty-context or a score gate decides, the chunk loader is never consulted |
| RetrievalValidation.OnlyTopThreeFetched | agents/retrieval_validation.py:56-59 | the outcome depends on the loader only through the first three chunk ids |
| RetrievalValidation.ValidateNodeAsWritten | agents/retrieval_validation.py:31-70 | the node as written: a missing query raises KeyError |
| RetrievalValidation.AsWrittenNeverAdmits | agents/retrieval_validation.py:47 | as written, the node never admits. Once the score gate passes it raises, where the corrected node does not |
| RetrievalValidation.AsWrittenCounterexample | agents/retrieval_validation.py:47 | a concrete state passing the score gates on which the node as written raises |
| Answer.NonEmpty | agents/answer.py:30-31 | a chunk is kept exactly when it is in the input and its text is non-empty |
| Answer.NonEmptySubsequence | agents/answer.py:26-37 | the kept chunks are an order-preserving subsequence of the fetched ones |
| Answer.Fetched | agents/answer.py:27 | the fetched chunk for every reference, in order |
| Answer.Pack | agents/answer.py:25-38 | the packed text never exceeds 4000 characters, and at most all references are consumed |
| Answer.PackFault | agents/answer.py:27 | packing fails only with ChunkNotFound for a reference whose chunk is missing |
| Answer.PackUsed | agents/answer.py:26-38 | the packed chunks are exactly the non-empty fetched chunks of the consumed prefix |
| Answer.PackStopsAtOverflow | agents/answer.py:33-34 | packing stops early only at a non-empty chunk that would overflow the budget |
| Answer.PackIgnoresRest | agents/answer.py:33-34 | chunks after the overflow point are never fetched: the result depends only on the consumed prefix and the breaking chunk |
| Answer.Contexts | agents/answer.py:36 | one "[id] text" context per packed chunk |
| Answer.ChunkIds | agents/answer.py:37 | the packed chunks' ids, in order |
| Answer.Unsupported | agents/answer.py:40-46 | answer None, no citations, unsupported, and every other key kept |
| Answer.AnswerNode | agents/answer.py:10-95 | no retrieved chunks gives only the three unsupported keys. Otherwise the node raises exactly when packing fails (with its fault) or when chunks were packed but `user_query` is absent (KeyError). Nothing packed gives the unsupported keys over the state. With chunks packed and a question, a reply containing the marker is unsupported, and any other reply is returned as the answer text, with the packed chunk ids as citations and answer_supported True. Supported iff there is an answer text, and unsupported means no citations |
| Answer.AnswerEvidence | agents/answer.py:26-95 | a supported answer cites the non-empty fetched chunks of a consumed prefix. When the prefix stops early, the next chunk would overflow the budget |
| Answer.MarkerRejects | agents/answer.py:82-88 | a reply containing INSUFFICIENT_EVIDENCE anywhere is never supported and cites nothing |
| Answer.StripKeepsMarker | agents/answer.py:79-82 | stripping the reply cannot remove a marker it contains |
| Clean.RemovePageMarkers | ingestion/clean.py:8 | removing page markers never lengthens the text |
| Clean.PageMarkerOf | ingestion/clean.py:8 | "page" and "of" in any letter case, each `\s+` any non-empty whitespace run and each `\d+` any digit run, is recognised as one marker ending exactly after the last digit |
| Clean.RemovesPageMarker | ingestion/clean.py:8 | such a marker at the start of the text, with any whitespace runs and letter case, is deleted and the scan continues after it |
| Clean.RemovePageMarkersUnchanged | ingestion/clean.py:8 | text without a marker is unchanged |
| Clean.JoinHyphenBreaks | ingestion/clean.py:11 | never lengthens the text |
| Clean.JoinsHyphenatedWord | ingestion/clean.py:11 | "-\n" is deleted, joining the two halves |
| Clean.JoinHyphenBreaksAppend | ingestion/clean.py:11 | the pass distributes over concatenation not split inside a "-\n" |
| Clean.JoinHyphenBreaksNoHyphen | ingestion/clean.py:11 | text without hyphens is unchanged |
| Clean.CollapseNewlines | ingestion/clean.py:14 | the result has no run of three newlines and is no longer than the input |
| Clean.CollapseUnchanged | ingestion/clean.py:14 | text without a triple newline is unchanged |
| Clean.CollapseIdempotent | ingestion/clean.py:14 | collapsing twice equals collapsing once |
| Clean.SqueezeBlanks | ingestion/clean.py:17 | the result has no two adjacent spaces or tabs and is no longer than the input |
| Clean.SqueezeUnchanged | ingestion/clean.py:17 | text without two adjacent blanks is unchanged |
| Clean.SqueezeKeepsNoTriple | ingestion/clean.py:14-17 | squeezing blanks cannot create a triple newline |
| Clean.CleanText | ingestion/clean.py:3-19 | empty gives "". The output is no longer than the input, has no outer whitespace, no triple newline and no adjacent blanks |
| Clean.CleanTextFixpoint | ingestion/clean.py:3-19 | already clean text (no marker, no hyphen, no triple newline, no double blank, stripped) is returned unchanged |
| EmbedFunc.StrippedLines | ingestion/embed_func.py:62-64 | the non-blank lines, each stripped, none empty |
| EmbedFunc.TableLines | ingestion/embed_func.py:62-65 | re-splitting the cleaned text gives back exactly the stripped non-blank lines |
| EmbedFunc.AnyLineHasDelimiter | ingestion/embed_func.py:73-75 | true iff some line contains '\|', a tab or a space |
| EmbedFunc.EmbedTable | ingestion/embed_func.py:52-90 | returns a vector iff the text is non-empty, has two or more cleaned lines, some delimiter and an alphabetic ratio of at least 0.15. The vector embeds the fixed header followed by the cleaned text |
| EmbedFunc.EmbedTableNeedsTwoRows | ingestion/embed_func.py:69-70 | an accepted table has at least two non-blank lines |
| EmbedFunc.NumericTableRejected | ingestion/embed_func.py:80-82 | a table without letters is rejected |
| EmbedFunc.GateIgnoresEmbedder | ingestion/embed_func.py:58-82 | acceptance does not depend on the embedder, which is called only after every gate passes |
| Ingest.IngestOne | ingestion/ingest.py:21-49 | fails exactly for an image document without image_path, with KeyError. A kept record holds the original document |
| Ingest.IngestText | ingestion/ingest.py:25-29 | a text-type document is kept iff its cleaned text is non-empty, and the cleaned text is embedded |
| Ingest.IngestTable | ingestion/ingest.py:32-35 | a table is kept iff embed_table accepts it, with that embedding |
| Ingest.IngestImage | ingestion/ingest.py:38-41 | an image with a path always yields a record embedding that path |
| Ingest.IngestOther | ingestion/ingest.py:43-44 | any other element type is dropped |
| Ingest.IngestDocuments | ingestion/ingest.py:18-51 | succeeds iff no document is an image without a path, and otherwise raises KeyError |
| Ingest.IngestSubsequence | ingestion/ingest.py:21-49 | the records' documents are an order-preserving subsequence of the input |
| Ingest.IngestComplete | ingestion/ingest.py:21-49 | every document the dispatch keeps appears among the records |
| Ingest.IngestBatches | ingestion/ingest.py:18-51 | ingesting a + b equals ingesting a, then b |
| Ingest.CollectComplete | ingestion/ingest.py:21-41 | in the loop shape, any value a step keeps is among the collected results of a completed loop |
| Ingest.CollectFirstFault | ingestion/ingest.py:21-41 | a failing run raises the fault of the first failing document, after every earlier one succeeded |
| Ingest.TextTypeAgreement | ingestion/ingest.py:8-16 | a loaded element counts as text at ingestion iff its raw type is a plain text type or SectionHeader |
| Ingest.LoadedImageIngested | ingestion/ingest.py:38-41 | an image saved by the loader is ingested with the embedding of its saved path |
| Ingest.UnsavedImageFails | ingestion/ingest.py:39 | an Image element with text but no image data loads as an image document without a path, and ingesting it raises KeyError |
| Load.NormaliseType | ingestion/load.py:35-41 | Text, NarrativeText, Title, Header, Footer and ListItem become "Text". Every other raw type, SectionHeader included, is kept |
| Load.ChunkId | ingestion/load.py:57 | the id starts with the doc id followed by "_" |
| Load.ChunkIdInjective | ingestion/load.py:57 | for doc ids without "_", different (doc, index) pairs give different chunk ids |
| Load.FileExt | ingestion/load.py:29 | empty, or a lower-case suffix starting with "." that contains no "/" |
| Load.LoadElement | ingestion/load.py:34-89 | an element is kept iff it is an image with data or has non-blank text. A kept element gets the file's doc id, chunk id doc_index, source and extension. A saved image has empty content, type Image and its path. Any other kept element keeps its text and normalised type, and has no path |
| Load.KeptIndices | ingestion/load.py:34-69 | the kept elements' original indices, increasing, and complete |
| Load.LoadFile | ingestion/load.py:34-89 | one document per kept element |
| Load.LoadFileAligned | ingestion/load.py:34-89 | document i is the loading of the i-th kept element at its original index, so skipped elements leave gaps |
| Load.LoadFileIds | ingestion/load.py:32-57 | all of one file's documents share its doc id and source |
| Load.LoadFileDistinct | ingestion/load.py:57-82 | one file's chunk ids are pairwise different |
| Load.LoadDocuments | ingestion/load.py:21-90 | at most one document per element |
| Load.LoadDocumentsBlocks | ingestion/load.py:27-34 | the output is file order, then element order |
| Load.LoadDocumentsFrom | ingestion/load.py:27-82 | every document carries the doc id of its file and the chunk id of its element |
| Load.LoadDocumentsDistinct | ingestion/load.py:32-82 | with distinct doc ids free of "_", every chunk id is unique across the run |
| IntentCheck.NormaliseIntent | agents/query_understanding/intent_check.py:64-66 | a recognised label is kept. Anything else, including a missing key or a non-string, becomes "unanswerable" |
| IntentCheck.IntentCheckNode | agents/query_understanding/intent_check.py:15-76 | a missing query raises. The result holds a label, should_refuse iff it is "unanswerable", and a confidence and a reason. Every other key is kept |
| IntentCheck.ParseFailureFallsBack | agents/query_understanding/intent_check.py:53-63 | an unparsable reply gives "unknown", confidence 0.0, the fixed reason, and no refusal |
| IntentCheck.NonObjectRaises | agents/query_understanding/intent_check.py:64 | a parsed reply makes the node raise iff it is not a dict |
| IntentCheck.ParsedObject | agents/query_understanding/intent_check.py:64-76 | a parsed dict's label is normalised, and confidence and reason default to 0.5 and "" |
| IntentCheck.RefusesIff | agents/query_understanding/intent_check.py:64-68 | refusal iff the reply is a dict whose intent is "unanswerable", missing or unrecognised. A model "unknown" is answered |
| Rewrite.ShouldRefuse | agents/query_understanding/rewrite.py:8 | reading should_refuse raises KeyError when it is absent |
| Rewrite.RewriteFor | agents/query_understanding/rewrite.py:15-107 | the original query is always kept in the rewrites |
| Rewrite.RewriteNode | agents/query_understanding/rewrite.py:6-114 | a refused state is returned unchanged. Otherwise the rewrites (original = query) and the flags are set, and every other key is kept |
| Rewrite.UnknownFallback | agents/query_understanding/rewrite.py:100-107 | "unknown" gives expansion = query, no hyde or sub-questions, flags (False, True), and never consults the model |
| Rewrite.OtherIntentDefaults | agents/query_understanding/rewrite.py:15-26 | an unrecognised intent leaves the defaults and no flag |
| Rewrite.FactualOutcome | agents/query_understanding/rewrite.py:29-46 | a usable reply sets only the expansion with flags (True, False). Any other reply leaves the defaults |
| Rewrite.AnalyticalOutcome | agents/query_understanding/rewrite.py:49-76 | both keys set both rewrites and both flags. The expansion alone is kept without flags (the partial assignment). Otherwise the defaults |
| Rewrite.MultiHopOutcome | agents/query_understanding/rewrite.py:79-99 | a reply with sub_questions sets them and both flags. Otherwise the defaults |
| Rewrite.FlagsMeaning | agents/query_understanding/rewrite.py:15-107 | recall is boosted only by a model-backed intent, and precision is at risk only for broadening intents. No flag means no hyde and no sub-questions |
| JsonUtil.Get | agents/query_understanding/intent_check.py:64 | `.get` on a dict returns the value or the default, and raises on anything else |
| JsonUtil.Index | agents/query_understanding/rewrite.py:43 | `value[key]` succeeds iff the value is a dict with the key |
| JsonUtil.Span | utils/json.py:8 | a found span starts with "{" and ends with "}" |
| JsonUtil.SpanCharacterized | utils/json.py:8-10 | a span exists iff some "{" precedes some "}". It runs from the first "{" to the last "}" inclusive, across newlines |
| JsonUtil.SpanAt | utils/json.py:8 | with "{" first at i and "}" last at j, the span is text[i..j] |
| JsonUtil.ExtractJson | utils/json.py:4-11 | no span raises. Otherwise the result is the decoding of exactly that span, and a span that does not decode raises |
| JsonUtil.ExtractIgnoresSurroundings | utils/json.py:8-11 | prose before the first "{" and after the last "}" does not affect the result |
| Graph.RouteAfterIntent | agents/graph.py:13-16 | REFUSE iff should_refuse holds, REWRITE otherwise. A missing key raises |
| Graph.RefuseNode | agents/graph.py:8-11 | returns only final_answer = refusal_message(intent_reason). A missing reason raises |
| Graph.RunGraph | agents/graph.py:18-45 | every run visits INTENT_CHECK, then exactly one of REWRITE or REFUSE, then END, and keeps the query. A refused run returns exactly the intent-checked state, with no final_answer, because `StateGraph(QueryState)` has no channel for it |
| Graph.RunGraphWithAnswer | agents/state.py:4-15 | the graph as evidently intended, with a final_answer channel: same paths, and a refused run returns the intent-checked state plus a final answer |
| Graph.RunFailsIff | agents/graph.py:18-55 | a run fails exactly when the intent reply decodes to something other than a dict |
| Graph.RunOutcome | agents/graph.py:18-45 | a run is refused iff its intent is "unanswerable". A refused run carries neither a final answer nor rewrites. An accepted run carries the rewrites and no final answer |
| Graph.RunOutcomeWithAnswer | agents/graph.py:8-11 | with a final_answer channel, a refused run carries refusal_message(intent_reason) and no rewrites, and an accepted run is as in RunOutcome |
| Graph.RefusalDropped | agents/state.py:4-15 | for all inputs, the graph as written and the intended graph fail alike, take the same path and agree on every key but final_answer, which differs exactly on refused runs |
| Graph.RefusalDroppedExample | agents/graph.py:8-11 | a reply of `{}` is refused; the graph as written returns no final answer, the intended one the refusal message |
| Refusal.Message | utils/refusal.py:2-11 | the fixed apology line, then "Reason: ", then the reason, with length a constant plus the reason's length |
| Refusal.ReasonRoundTrip | utils/refusal.py:8-11 | the reason can be read back from the message |
| Refusal.MessageInjective | utils/refusal.py:8-11 | different reasons give different messages |
| AgentState.UserQuery | agents/query_understanding/intent_check.py:16 | `state["user_query"]` raises KeyError when the key is absent |
| AgentState.FetchChunk | retrieval/chunks_retriever.py:18-40 | the chunk store lookup returns the chunk, or raises not-found for a missing id |
| Ranking.SortDesc | retrieval/hybrid_fusion.py:25 | the sort is a permutation, ordered best first |
| Ranking.SortStable | retrieval/hybrid_fusion.py:25 | items with equal keys keep their input order |
| Ranking.TakeBest | retrieval/hybrid_fusion.py:26 | a prefix of a sorted list keeps items at least as good as every item it drops |
| Base.PyTake | retrieval/hybrid_fusion.py:26 | `xs[:k]` is a prefix: min(k, n) items for k >= 0, and drops -k items from the end for k < 0 |
| Chars.Strip | ingestion/clean.py:19 | a contiguous slice with no outer whitespace, empty iff the text is all whitespace |
| Chars.StripShape | agents/answer.py:79 | the stripped text is the slice from the first to just past the last non-whitespace character |
| Chars.SplitJoinRoundTrip | agents/retrieval_validation.py:19 | splitting words joined by single spaces gives back the words |
| Chars.SplitLinesJoin | ingestion/embed_func.py:62-65 | splitting non-empty lines joined by "\n" gives back the lines |
| Chars.ContainsIffSlice | agents/answer.py:82 | `marker in reply` holds iff the marker occurs in the reply as a contiguous slice |
| Chars.ParseNatToString | ingestion/load.py:57 | the decimal index in a chunk id reads back as the index |

## Left out

- Postgres I/O, the schema and the chunk store are not modelled. A chunk lookup is the parameter `fetch`, and a missing row is the `ChunkNotFound` fault, as the retriever's ValueError.
- Language-model calls, prompt wording, `json.loads`, the text and image embedders and `uuid` are parameters. Which prompt is sent is modelled, but not its text.
- FAISS is modelled as exact inner-product top-k with ties broken by row order and -1 padding beyond ntotal. Float32 arithmetic is not modelled, and neither is the NaN a zero-norm vector produces. The reciprocal norm is the parameter `scale`, which is not constrained: unit length is proved under the hypothesis that it is the reciprocal of the L2 norm (`VectorStore.NormalizeUnit`).
- BM25 and fusion scores are real numbers, not floats. `math.log` is the parameter `ln`, with no positivity assumed.
- `str.isspace`, `isalnum`, `isdigit`, `isalpha`, `lower`, `split`, `strip`, `splitlines` and regex `\s`, `\d` are ASCII approximations; Unicode classes are not modelled.
- IntentCheck.NonObjectRaises: covers a decoded value that is not a dict. `json.loads` of text running from a `{` to a `}` can only give a dict, but `loads` is an unconstrained parameter, so the model keeps the AttributeError branch the source cannot reach.
- Bm25.Init: requires 0 <= k1 and 0 <= b <= 1, which the constructor does not check. Other parameters can make the length normaliser non-positive, and the store invariant needs it positive.
- agents/retrieve.py imports a missing `dense_retrieve_text` and passes the store classes as indexes. The model uses `dense_retrieve` with store values, as evidently intended.
- The graph library's state merging is modelled only as this graph uses it. A node's returned keys are written only to the channels of the state schema, the `QueryState` of agents/state.py. The refusal node's `final_answer` has no channel and is dropped (see Findings). Graph-library releases that raise on an update naming no channel, instead of dropping the key, are not modelled. The answer node's hard stop returns only its three keys.
- `partition`, image saving and `Image.open` are not modelled. Elements arrive as data, and the image embedder receives the saved path.
- Graph.Format: the `f"{reason}"` rendering of numbers, lists and dicts is the parameter `show`. Strings, None and booleans are rendered as Python spells them.
- main.py, agents/graphs/retrieval_graph.py, agents/embed_query.py, utils/llm.py and the `__main__` blocks are not part of this model.

## Findings

| source | as written | input that shows it | evidently intended | confidence | as-written member | corrected member |
|---|---|---|---|---|---|---|
| agents/retrieval_validation.py:47 | `estimate_recall(query, chunks_meta, k)` passes three arguments to a function defined with two (line 10), so it raises TypeError whenever the weak-score gate passes, and the node can never admit | a query "q", one chunk "c", score 0.9, top_k 1 (`AsWrittenCounterexample`) | `estimate_recall(chunks_meta, k)` | not executed | RetrievalValidation.ValidateNodeAsWritten | RetrievalValidation.ValidateNode |
| agents/graph.py:8-11 | `refuse_node` returns only `{"final_answer": ...}`, but the graph is built as `StateGraph(QueryState)` and the `QueryState` of agents/state.py:4-15 has no `final_answer` key, so the update has no channel and the refusal message never reaches the caller | a reply of `{}`, which is a dict without an intent and is refused (`RefusalDroppedExample`) | a `final_answer` key in `QueryState`, so a refused run returns the refusal message | not executed | Graph.RunGraph | Graph.RunGraphWithAnswer |
