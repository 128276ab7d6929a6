/** agents/retrieve.py: the retrieval node. It runs dense and sparse retrieval
    with `TOP_K`, fuses them, and writes the fused order into the state as two
    index-aligned lists. */
module Retrieve {
  import opened Base
  import Bm25
  import VectorStore
  import Ranking
  import opened RetrievalSignal
  import opened HybridFusion
  import opened AgentState

  /** `TOP_K`. */
  const TopK: int := 10

  const HybridSource: string := "hybrid"

  /** `state["query_embedding"]`. */
  function QueryEmbedding(s: QueryState): (r: Result<Option<seq<real>>>)
    ensures r.Ok? <==> s.queryEmbedding.Some?
    ensures r.Ok? ==> r.value == s.queryEmbedding.value
    ensures r.Err? ==> r.fault == KeyError("query_embedding")
  {
    match s.queryEmbedding
    case Some(e) => Ok(e)
    case None => Err(KeyError("query_embedding"))
  }

  /** The result loop: one chunk reference and one score per fused entry. */
  function Refs(fused: seq<Fused>): (r: seq<ChunkRef>)
    ensures |r| == |fused|
    ensures forall i :: 0 <= i < |fused| ==> r[i].chunkId == fused[i].chunkId && r[i].source == HybridSource
  {
    seq(|fused|, i requires 0 <= i < |fused| => ChunkRef(fused[i].chunkId, HybridSource))
  }

  function Scores(fused: seq<Fused>): (r: seq<real>)
    ensures |r| == |fused|
    ensures forall i :: 0 <= i < |fused| ==> r[i] == fused[i].score
  {
    seq(|fused|, i requires 0 <= i < |fused| => fused[i].score)
  }

  /** The fused entries of one query. */
  function FusedFor(query: string, embedding: Option<seq<real>>, vectors: VectorStore.Store,
                 bm25: Bm25.Store, scale: seq<real> -> real, ln: real -> real): Result<seq<Fused>>
    requires VectorStore.Valid(vectors) && Bm25.Valid(bm25)
  {
    var dense :- DenseRetrieve(embedding, vectors, TopK, scale);
    Ok(Fusion(dense, SparseRetrieve(query, bm25, TopK, ln), TopK))
  }

  /** `retrieve_node(state)`, with the two indexes it means to search supplied. */
  function RetrieveNode(s: QueryState, vectors: VectorStore.Store, bm25: Bm25.Store,
                        scale: seq<real> -> real, ln: real -> real): (r: Result<QueryState>)
    requires VectorStore.Valid(vectors) && Bm25.Valid(bm25)
    ensures s.userQuery.None? ==> r == Err(KeyError("user_query"))
    ensures s.userQuery.Some? && s.queryEmbedding.None? ==> r == Err(KeyError("query_embedding"))
    ensures r.Ok? <==> s.userQuery.Some? && s.queryEmbedding.Some?
                       && FusedFor(s.userQuery.value, s.queryEmbedding.value, vectors, bm25, scale, ln).Ok?
    ensures r.Ok? ==>
              && r.value.retrievedChunks.Some? && r.value.retrievalScores.Some?
              && r.value.topK == Some(TopK)
              && r.value.(retrievedChunks := s.retrievedChunks, retrievalScores := s.retrievalScores,
                          topK := s.topK) == s
    ensures r.Ok? ==>
              var chunks := r.value.retrievedChunks.value;
              var scores := r.value.retrievalScores.value;
              var fused := FusedFor(s.userQuery.value, s.queryEmbedding.value, vectors, bm25, scale, ln).value;
              && |chunks| == |scores| == |fused| <= TopK
              && (forall i :: 0 <= i < |chunks| ==>
                    && chunks[i] == ChunkRef(fused[i].chunkId, HybridSource)
                    && scores[i] == fused[i].score)
  {
    var query :- UserQuery(s);
    var embedding :- QueryEmbedding(s);
    var dense :- DenseRetrieve(embedding, vectors, TopK, scale);
    var sparse := SparseRetrieve(query, bm25, TopK, ln);
    var fused := Fusion(dense, sparse, TopK);
    Ok(s.(retrievedChunks := Some(Refs(fused)), retrievalScores := Some(Scores(fused)), topK := Some(TopK)))
  }

  /** The stored scores are best first and no chunk is listed twice. */
  lemma RetrieveRanked(s: QueryState, vectors: VectorStore.Store, bm25: Bm25.Store,
                       scale: seq<real> -> real, ln: real -> real)
    requires VectorStore.Valid(vectors) && Bm25.Valid(bm25)
    requires RetrieveNode(s, vectors, bm25, scale, ln).Ok?
    ensures var r := RetrieveNode(s, vectors, bm25, scale, ln).value;
      var chunks := r.retrievedChunks.value;
      var scores := r.retrievalScores.value;
      && (forall i, j :: 0 <= i < j < |scores| ==> scores[i] >= scores[j])
      && (forall i, j :: 0 <= i < j < |chunks| ==> chunks[i].chunkId != chunks[j].chunkId)
  {
    var dense := DenseRetrieve(s.queryEmbedding.value, vectors, TopK, scale).value;
    var sparse := SparseRetrieve(s.userQuery.value, bm25, TopK, ln);
    var fused := Fusion(dense, sparse, TopK);
    assert FusedFor(s.userQuery.value, s.queryEmbedding.value, vectors, bm25, scale, ln).value == fused;
    FusionIdsDistinct(dense, sparse, TopK);
    assert Ranking.SortedDesc(fused, FusedScore);
  }
}
