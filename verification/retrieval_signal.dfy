/** retrieval/retrieval_signal.py: each index's hits tagged with the signal they
    came from, so that fusion can add the two kinds of score separately. */
module RetrievalSignal {
  import opened Base
  import Bm25
  import VectorStore

  /** `{"chunk_id": ..., "dense_score": ..., "sparse_score": ...}`. */
  datatype Signal = Signal(chunkId: string, dense: real, sparse: real)

  function SignalId(r: Signal): string { r.chunkId }

  /** `dense_retrieve`'s default `top_k`. */
  const DenseDefaultTopK: int := 10

  /** `sparse_retrieve`'s default `top_k`. */
  const SparseDefaultTopK: int := 0

  /** Dense hits as signals: the score becomes the dense part. */
  function TagDense(hits: seq<Hit>): (r: seq<Signal>)
    ensures |r| == |hits|
    ensures forall i :: 0 <= i < |hits| ==> r[i].chunkId == hits[i].chunkId
    ensures forall i :: 0 <= i < |hits| ==> r[i].dense == hits[i].score && r[i].sparse == 0.0
  {
    seq(|hits|, i requires 0 <= i < |hits| => Signal(hits[i].chunkId, hits[i].score, 0.0))
  }

  /** Sparse hits as signals: the score becomes the sparse part. */
  function TagSparse(hits: seq<Hit>): (r: seq<Signal>)
    ensures |r| == |hits|
    ensures forall i :: 0 <= i < |hits| ==> r[i].chunkId == hits[i].chunkId
    ensures forall i :: 0 <= i < |hits| ==> r[i].dense == 0.0 && r[i].sparse == hits[i].score
  {
    seq(|hits|, i requires 0 <= i < |hits| => Signal(hits[i].chunkId, 0.0, hits[i].score))
  }

  /** `dense_retrieve(query_embedding, vector_index, top_k)`: no embedding, no
      hits; otherwise the vector index's hits, with its exceptions. */
  function DenseRetrieve(embedding: Option<seq<real>>, index: VectorStore.Store, topK: int,
                         scale: seq<real> -> real): (r: Result<seq<Signal>>)
    requires VectorStore.Valid(index)
    ensures embedding.None? ==> r == Ok([])
    ensures embedding.Some? ==>
              var hits := VectorStore.Search(index, embedding.value, topK, scale);
              && (hits.Err? <==> r.Err?)
              && (hits.Err? ==> r.fault == hits.fault)
              && (hits.Ok? ==> r.value == TagDense(hits.value))
  {
    if embedding.None? then Ok([])
    else
      var hits :- VectorStore.Search(index, embedding.value, topK, scale);
      Ok(TagDense(hits))
  }

  /** `sparse_retrieve(query, bm25_index, top_k)`. */
  function SparseRetrieve(query: string, index: Bm25.Store, topK: int, ln: real -> real): (r: seq<Signal>)
    requires Bm25.Valid(index)
    ensures var hits := Bm25.Search(index, query, topK, ln);
      && |r| == |hits|
      && forall i :: 0 <= i < |r| ==>
           r[i].chunkId == hits[i].chunkId && r[i].dense == 0.0 && r[i].sparse == hits[i].score
    ensures topK >= 0 ==> |r| <= topK
    ensures query == "" ==> r == []
  {
    TagSparse(Bm25.Search(index, query, topK, ln))
  }

  /** Called without `top_k`, `sparse_retrieve` returns nothing: BM25 keeps the
      first zero hits. */
  lemma SparseDefaultEmpty(query: string, index: Bm25.Store, ln: real -> real)
    requires Bm25.Valid(index)
    ensures SparseRetrieve(query, index, SparseDefaultTopK, ln) == []
  {
  }

  /** A dense signal never exceeds the requested count and names a stored chunk. */
  lemma DenseWithinIndex(embedding: Option<seq<real>>, index: VectorStore.Store, topK: int,
                         scale: seq<real> -> real)
    requires VectorStore.Valid(index)
    ensures var r := DenseRetrieve(embedding, index, topK, scale);
      r.Ok? ==> |r.value| <= Max(topK, 0) && forall x :: x in r.value ==> x.chunkId in index.idMap
  {
    var r := DenseRetrieve(embedding, index, topK, scale);
    if embedding.Some? && r.Ok? {
      var hits := VectorStore.Search(index, embedding.value, topK, scale).value;
      forall x | x in r.value ensures x.chunkId in index.idMap {
        var i :| 0 <= i < |r.value| && r.value[i] == x;
        assert hits[i] in hits;
      }
    }
  }
}
