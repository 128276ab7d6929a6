/** retrieval/hybrid_fusion.py: merge dense and sparse signals by chunk id,
    weight the two summed scores, rank stably best-first and keep the top. */
module HybridFusion {
  import opened Base
  import opened Ranking
  import opened RetrievalSignal

  /** `{"chunk_id", "dense_score", "sparse_score", "score"}`. */
  datatype Fused = Fused(chunkId: string, dense: real, sparse: real, score: real)

  function FusedScore(f: Fused): real { f.score }

  function FusedId(f: Fused): string { f.chunkId }

  function SignalDense(r: Signal): real { r.dense }

  function SignalSparse(r: Signal): real { r.sparse }

  const DenseWeight: real := 0.6
  const SparseWeight: real := 0.4

  /** `hybrid_fusion`'s default `top_k`. */
  const DefaultTopK: int := 10

  /** The insertion-ordered dict `combined`: its keys in insertion order and the
      accumulated entry of each. */
  datatype Combined = Combined(keys: seq<string>, entries: map<string, Signal>)

  ghost predicate WellFormed(c: Combined) {
    && Distinct(c.keys)
    && (forall k :: k in c.entries <==> k in c.keys)
    && (forall k :: k in c.entries ==> c.entries[k].chunkId == k)
  }

  /** The chunk ids of a signal list, in order. */
  function Ids(rs: seq<Signal>): seq<string> {
    Project(rs, SignalId)
  }

  /** Reference: the sum of `f` over every signal for `id`, in list order. */
  function SumOf(rs: seq<Signal>, id: string, f: Signal -> real): real {
    if |rs| == 0 then 0.0
    else SumOf(rs[..|rs| - 1], id, f) + (if rs[|rs| - 1].chunkId == id then f(rs[|rs| - 1]) else 0.0)
  }

  /** Reference: the first occurrence of every element, in order of first occurrence. */
  function DedupFirst(xs: seq<string>): (r: seq<string>)
    ensures Distinct(r)
    ensures forall x :: x in r <==> x in xs
  {
    if |xs| == 0 then []
    else
      var prev := DedupFirst(xs[..|xs| - 1]);
      if xs[|xs| - 1] in xs[..|xs| - 1] then prev else prev + [xs[|xs| - 1]]
  }

  /** The accumulation loop over `dense_results + sparse_results`. */
  function Combine(rs: seq<Signal>): (c: Combined)
    ensures WellFormed(c)
  {
    if |rs| == 0 then Combined([], map[])
    else
      var c := Combine(rs[..|rs| - 1]);
      var r := rs[|rs| - 1];
      var keys := if r.chunkId in c.entries then c.keys else c.keys + [r.chunkId];
      assert Distinct(keys);
      Combined(keys, Accumulate(c.entries, r))
  }

  /** One iteration: a new id starts from zero, and the signal's two scores are
      added to its id's entry. */
  function Accumulate(entries: map<string, Signal>, r: Signal): (m: map<string, Signal>)
    ensures m.Keys == entries.Keys + {r.chunkId}
    ensures forall k :: k in entries && k != r.chunkId ==> m[k] == entries[k]
    ensures m[r.chunkId].chunkId == r.chunkId
    ensures r.chunkId in entries ==>
              m[r.chunkId].dense == entries[r.chunkId].dense + r.dense
              && m[r.chunkId].sparse == entries[r.chunkId].sparse + r.sparse
    ensures r.chunkId !in entries ==> m[r.chunkId].dense == r.dense && m[r.chunkId].sparse == r.sparse
  {
    var e := if r.chunkId in entries then entries[r.chunkId] else Signal(r.chunkId, 0.0, 0.0);
    entries[r.chunkId := Signal(r.chunkId, e.dense + r.dense, e.sparse + r.sparse)]
  }

  lemma IdsPrefix(rs: seq<Signal>)
    requires |rs| > 0
    ensures Ids(rs[..|rs| - 1]) == Ids(rs)[..|rs| - 1]
    ensures Ids(rs)[|rs| - 1] == rs[|rs| - 1].chunkId
  {
  }

  /** Each id occurring in the input is one key, keys in order of first appearance,
      the dense list before the sparse list. */
  lemma {:induction false} CombineKeys(rs: seq<Signal>)
    ensures Combine(rs).keys == DedupFirst(Ids(rs))
  {
    if |rs| > 0 {
      CombineKeys(rs[..|rs| - 1]);
      IdsPrefix(rs);
    }
  }

  lemma {:induction false} SumOfAbsent(rs: seq<Signal>, id: string, f: Signal -> real)
    requires id !in Ids(rs)
    ensures SumOf(rs, id, f) == 0.0
  {
    if |rs| > 0 {
      IdsPrefix(rs);
      assert Ids(rs[..|rs| - 1]) == Ids(rs)[..|rs| - 1];
      SumOfAbsent(rs[..|rs| - 1], id, f);
    }
  }

  /** The keys are exactly the ids that occur in the input. */
  lemma {:induction false} CombineDomain(rs: seq<Signal>)
    ensures forall k :: k in Combine(rs).entries <==> k in Ids(rs)
  {
    if |rs| > 0 {
      CombineDomain(rs[..|rs| - 1]);
      IdsPrefix(rs);
      var ids := Ids(rs);
      var r := rs[|rs| - 1];
      forall k ensures k in Combine(rs).entries <==> k in ids {
        if k in ids && k != r.chunkId {
          var i :| 0 <= i < |ids| && ids[i] == k;
          assert ids[..|rs| - 1][i] == k;
        }
      }
    }
  }

  /** Each key's entry holds the sums of its dense and of its sparse scores. */
  lemma {:induction false} CombineSums(rs: seq<Signal>)
    ensures var c := Combine(rs);
      forall k :: k in c.entries ==>
        c.entries[k].dense == SumOf(rs, k, SignalDense) && c.entries[k].sparse == SumOf(rs, k, SignalSparse)
    ensures forall k :: k in Combine(rs).entries <==> k in Ids(rs)
  {
    CombineDomain(rs);
    if |rs| > 0 {
      var pre := rs[..|rs| - 1];
      CombineSums(pre);
      var c := Combine(rs);
      var prev := Combine(pre);
      var r := rs[|rs| - 1];
      assert c.entries == Accumulate(prev.entries, r);
      if r.chunkId !in prev.entries {
        SumOfAbsent(pre, r.chunkId, SignalDense);
        SumOfAbsent(pre, r.chunkId, SignalSparse);
      }
      forall k | k in c.entries
        ensures c.entries[k].dense == SumOf(rs, k, SignalDense)
        ensures c.entries[k].sparse == SumOf(rs, k, SignalSparse)
      {
        assert SumOf(rs, k, SignalDense) == SumOf(pre, k, SignalDense) + (if r.chunkId == k then r.dense else 0.0);
        assert SumOf(rs, k, SignalSparse) == SumOf(pre, k, SignalSparse) + (if r.chunkId == k then r.sparse else 0.0);
      }
    }
  }

  /** `fused`: one entry per key, in key order, with the weighted score. */
  function Fuse(c: Combined): (r: seq<Fused>)
    requires forall k :: k in c.keys ==> k in c.entries
    ensures |r| == |c.keys|
    ensures forall i :: 0 <= i < |r| ==> r[i].chunkId == c.keys[i]
  {
    seq(|c.keys|, i requires 0 <= i < |c.keys| =>
      var e := c.entries[c.keys[i]];
      Fused(c.keys[i], e.dense, e.sparse, DenseWeight * e.dense + SparseWeight * e.sparse))
  }

  /** All fused entries, before truncation. */
  function Unranked(dense: seq<Signal>, sparse: seq<Signal>): seq<Fused> {
    Fuse(Combine(dense + sparse))
  }

  /** `fused.sort(key=score, reverse=True)`: the full ranking. */
  function FullRanking(dense: seq<Signal>, sparse: seq<Signal>): seq<Fused> {
    SortDesc(Unranked(dense, sparse), FusedScore)
  }

  /** Every fused entry carries the summed scores of its id and the weighted score. */
  ghost predicate Scored(fs: seq<Fused>, rs: seq<Signal>) {
    forall f :: f in fs ==>
      && f.chunkId in Ids(rs)
      && f.dense == SumOf(rs, f.chunkId, SignalDense)
      && f.sparse == SumOf(rs, f.chunkId, SignalSparse)
      && f.score == DenseWeight * f.dense + SparseWeight * f.sparse
  }

  /** Every fused entry, before ranking, carries its id's sums. */
  lemma FuseScored(rs: seq<Signal>)
    ensures Scored(Fuse(Combine(rs)), rs)
  {
    var c := Combine(rs);
    var u := Fuse(c);
    CombineSums(rs);
    forall f | f in u
      ensures && f.chunkId in Ids(rs)
              && f.dense == SumOf(rs, f.chunkId, SignalDense)
              && f.sparse == SumOf(rs, f.chunkId, SignalSparse)
              && f.score == DenseWeight * f.dense + SparseWeight * f.sparse
    {
      var i :| 0 <= i < |u| && u[i] == f;
      assert c.keys[i] in c.entries;
    }
  }

  lemma FullRankingFacts(dense: seq<Signal>, sparse: seq<Signal>)
    ensures |FullRanking(dense, sparse)| == |DedupFirst(Ids(dense + sparse))|
    ensures Scored(FullRanking(dense, sparse), dense + sparse)
  {
    var rs := dense + sparse;
    CombineKeys(rs);
    FuseScored(rs);
    var u := Unranked(dense, sparse);
    var full := FullRanking(dense, sparse);
    assert multiset(full) == multiset(u);
    forall f | f in full ensures f in u {
      assert f in multiset(u);
    }
  }

  /** `hybrid_fusion(dense_results, sparse_results, top_k)`. */
  function Fusion(dense: seq<Signal>, sparse: seq<Signal>, topK: int): (r: seq<Fused>)
    ensures |r| <= |FullRanking(dense, sparse)| && r == FullRanking(dense, sparse)[..|r|]
    ensures topK >= 0 ==> |r| == Min(topK, |DedupFirst(Ids(dense + sparse))|)
    ensures SortedDesc(r, FusedScore)
    ensures Scored(r, dense + sparse)
    ensures |dense| + |sparse| == 0 ==> r == []
  {
    var full := FullRanking(dense, sparse);
    FusionFacts(dense, sparse, topK);
    PyTake(full, topK)
  }

  lemma FusionFacts(dense: seq<Signal>, sparse: seq<Signal>, topK: int)
    ensures var r := PyTake(FullRanking(dense, sparse), topK);
      && (topK >= 0 ==> |r| == Min(topK, |DedupFirst(Ids(dense + sparse))|))
      && SortedDesc(r, FusedScore)
      && Scored(r, dense + sparse)
      && (|dense| + |sparse| == 0 ==> r == [])
  {
    var full := FullRanking(dense, sparse);
    FullRankingFacts(dense, sparse);
    TakeScored(full, dense + sparse, topK);
    if |dense| + |sparse| == 0 {
      assert Ids(dense + sparse) == [];
    }
  }

  /** Truncating a sorted, scored list keeps it sorted and scored. */
  lemma TakeScored(fs: seq<Fused>, rs: seq<Signal>, topK: int)
    requires SortedDesc(fs, FusedScore) && Scored(fs, rs)
    ensures SortedDesc(PyTake(fs, topK), FusedScore) && Scored(PyTake(fs, topK), rs)
  {
    Ranking.TakeSorted(fs, topK, FusedScore);
  }

  /** Before truncation every id of either input occurs exactly once, and no other id occurs. */
  lemma FusionExactlyOnce(dense: seq<Signal>, sparse: seq<Signal>, id: string)
    ensures multiset(Project(FullRanking(dense, sparse), FusedId))[id]
         == (if id in Ids(dense + sparse) then 1 else 0)
  {
    var u := Unranked(dense, sparse);
    var ids := DedupFirst(Ids(dense + sparse));
    CombineKeys(dense + sparse);
    SortProject(u, FusedScore, FusedId);
    assert Project(u, FusedId) == ids;
    DistinctCount(ids, id);
  }

  lemma {:induction false} DistinctCount<T>(xs: seq<T>, x: T)
    requires Distinct(xs)
    ensures multiset(xs)[x] == (if x in xs then 1 else 0)
  {
    if |xs| > 0 {
      assert xs == [xs[0]] + xs[1..];
      DistinctCount(xs[1..], x);
    }
  }

  /** Truncation keeps a best prefix: nothing dropped outscores anything kept. */
  lemma FusionDropsOnlyWorse(dense: seq<Signal>, sparse: seq<Signal>, topK: int)
    ensures var full := FullRanking(dense, sparse);
      var r := Fusion(dense, sparse, topK);
      forall i, j :: 0 <= i < |r| <= j < |full| ==> full[j].score <= r[i].score
  {
    var full := FullRanking(dense, sparse);
    var r := Fusion(dense, sparse, topK);
    forall i, j | 0 <= i < |r| <= j < |full| ensures full[j].score <= r[i].score {
      assert r[i] == full[i];
    }
  }

  /** Entries with equal scores keep the order in which their ids first appeared,
      scanning the dense list before the sparse list. */
  lemma FusionTiesInFirstAppearance(dense: seq<Signal>, sparse: seq<Signal>, v: real)
    ensures IsSubsequence(Project(KeyClass(FullRanking(dense, sparse), FusedScore, v), FusedId),
                          DedupFirst(Ids(dense + sparse)))
  {
    var u := Unranked(dense, sparse);
    CombineKeys(dense + sparse);
    SortStable(u, FusedScore, v);
    KeyClassSubsequence(u, FusedScore, v, FusedId);
    assert Project(u, FusedId) == DedupFirst(Ids(dense + sparse));
  }

  /** No chunk id occurs twice in the fused result. */
  lemma FusionIdsDistinct(dense: seq<Signal>, sparse: seq<Signal>, topK: int)
    ensures var r := Fusion(dense, sparse, topK);
      forall i, j :: 0 <= i < j < |r| ==> r[i].chunkId != r[j].chunkId
  {
    var full := FullRanking(dense, sparse);
    var r := Fusion(dense, sparse, topK);
    forall i, j | 0 <= i < j < |r| ensures r[i].chunkId != r[j].chunkId {
      if r[i].chunkId == r[j].chunkId {
        var ids := Project(full, FusedId);
        assert ids[i] == r[i].chunkId && ids[j] == r[j].chunkId;
        MultisetTwice(ids, i, j);
        FusionExactlyOnce(dense, sparse, r[i].chunkId);
        assert false;
      }
    }
  }
}
