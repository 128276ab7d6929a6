/** retrieval/retrieval_pipeline.py: dense and sparse retrieval fused with one
    `top_k`. */
module RetrievalPipeline {
  import opened Base
  import Bm25
  import VectorStore
  import opened RetrievalSignal
  import opened HybridFusion

  /** `retrieval_pipeline`'s default `top_k`. */
  const DefaultTopK: int := 10

  /** `{"query": ..., "retrieval_results": ...}`. */
  datatype Output = Output(query: string, results: seq<Fused>)

  /** `retrieval_pipeline(query, query_embedding, vector_index, bm25_index, top_k)`. */
  function Pipeline(query: string, embedding: Option<seq<real>>, vectors: VectorStore.Store,
                    bm25: Bm25.Store, topK: int, scale: seq<real> -> real, ln: real -> real): (r: Result<Output>)
    requires VectorStore.Valid(vectors) && Bm25.Valid(bm25)
    ensures r.Err? <==> DenseRetrieve(embedding, vectors, topK, scale).Err?
    ensures r.Ok? ==>
              && r.value.query == query
              && r.value.results == Fusion(DenseRetrieve(embedding, vectors, topK, scale).value,
                                           SparseRetrieve(query, bm25, topK, ln), topK)
              && (topK >= 0 ==> |r.value.results| <= topK)
  {
    var dense :- DenseRetrieve(embedding, vectors, topK, scale);
    var sparse := SparseRetrieve(query, bm25, topK, ln);
    Ok(Output(query, Fusion(dense, sparse, topK)))
  }

  /** Every fused result names a chunk of the vector index or of the BM25 index. */
  lemma PipelineProvenance(query: string, embedding: Option<seq<real>>, vectors: VectorStore.Store,
                           bm25: Bm25.Store, topK: int, scale: seq<real> -> real, ln: real -> real)
    requires VectorStore.Valid(vectors) && Bm25.Valid(bm25)
    ensures var r := Pipeline(query, embedding, vectors, bm25, topK, scale, ln);
      r.Ok? ==> forall f :: f in r.value.results ==>
        f.chunkId in vectors.idMap || f.chunkId in bm25.documents
  {
    var r := Pipeline(query, embedding, vectors, bm25, topK, scale, ln);
    if r.Ok? {
      var dense := DenseRetrieve(embedding, vectors, topK, scale).value;
      var sparse := SparseRetrieve(query, bm25, topK, ln);
      DenseWithinIndex(embedding, vectors, topK, scale);
      SparseWithinIndex(query, bm25, topK, ln);
      forall f | f in r.value.results
        ensures f.chunkId in vectors.idMap || f.chunkId in bm25.documents
      {
        SignalOf(dense, sparse, f.chunkId);
      }
    }
  }

  /** Every sparse signal names a document of the BM25 index. */
  lemma SparseWithinIndex(query: string, bm25: Bm25.Store, topK: int, ln: real -> real)
    requires Bm25.Valid(bm25)
    ensures forall x :: x in SparseRetrieve(query, bm25, topK, ln) ==> x.chunkId in bm25.documents
  {
    var sparse := SparseRetrieve(query, bm25, topK, ln);
    var hits := Bm25.Search(bm25, query, topK, ln);
    forall x | x in sparse ensures x.chunkId in bm25.documents {
      var i :| 0 <= i < |sparse| && sparse[i] == x;
      assert hits[i] in hits;
    }
  }

  /** An id of the joined signal lists is the id of a dense or a sparse signal. */
  lemma SignalOf(dense: seq<Signal>, sparse: seq<Signal>, id: string)
    requires id in Ids(dense + sparse)
    ensures (exists x :: x in dense && x.chunkId == id) || (exists x :: x in sparse && x.chunkId == id)
  {
    var rs := dense + sparse;
    var i :| 0 <= i < |Ids(rs)| && Ids(rs)[i] == id;
    if i < |dense| {
      assert rs[i] == dense[i] && dense[i] in dense;
    } else {
      assert rs[i] == sparse[i - |dense|] && sparse[i - |dense|] in sparse;
    }
  }

  /** Without a query embedding every result is purely lexical. */
  lemma PipelineLexicalOnly(query: string, vectors: VectorStore.Store, bm25: Bm25.Store, topK: int,
                            scale: seq<real> -> real, ln: real -> real)
    requires VectorStore.Valid(vectors) && Bm25.Valid(bm25)
    ensures var r := Pipeline(query, None, vectors, bm25, topK, scale, ln);
      r.Ok? && forall f :: f in r.value.results ==> f.dense == 0.0 && f.score == SparseWeight * f.sparse
  {
    var r := Pipeline(query, None, vectors, bm25, topK, scale, ln);
    var dense := DenseRetrieve(None, vectors, topK, scale).value;
    var sparse := SparseRetrieve(query, bm25, topK, ln);
    assert dense + sparse == sparse;
    assert Scored(r.value.results, sparse);
    forall f | f in r.value.results
      ensures f.dense == 0.0
    {
      SumOfSparseOnly(sparse, f.chunkId);
    }
  }

  /** Signals that carry no dense score sum to no dense score. */
  lemma {:induction false} SumOfSparseOnly(rs: seq<Signal>, id: string)
    requires forall i :: 0 <= i < |rs| ==> rs[i].dense == 0.0
    ensures SumOf(rs, id, SignalDense) == 0.0
  {
    if |rs| > 0 {
      SumOfSparseOnly(rs[..|rs| - 1], id);
    }
  }
}
