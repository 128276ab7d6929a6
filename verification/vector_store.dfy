/** The dense index of storage/vector_store.py: a flat inner-product index whose
    row `i` belongs to `id_map[i]`. The vector norm is a parameter `scale`, the
    reciprocal of the L2 norm, since the verifier has no square root. */
module VectorStore {
  import opened Base
  import Ranking

  /** `self.dim`, the rows of `self.index` and `self.id_map`. */
  datatype Store = Store(dim: nat, vectors: seq<seq<real>>, idMap: seq<string>)

  /** A row of the index's answer: a row number (or the sentinel -1) and its score. */
  datatype Slot = Slot(idx: int, score: real)

  function SlotScore(sl: Slot): real { sl.score }

  /** Row number the index reports for a position it could not fill. */
  const Sentinel: int := -1

  /** The lock-step invariant: one id per stored vector, every vector of width `dim`. */
  ghost predicate Valid(s: Store) {
    && |s.vectors| == |s.idMap|
    && forall i :: 0 <= i < |s.vectors| ==> |s.vectors[i]| == s.dim
  }

  /** `VectorStore(dim)`: an empty index. */
  function Init(dim: nat): (s: Store)
    ensures Valid(s) && s.dim == dim && |s.idMap| == 0
  {
    Store(dim, [], [])
  }

  /** `v` multiplied component-wise by `c`. */
  function Scaled(v: seq<real>, c: real): (r: seq<real>)
    ensures |r| == |v|
  {
    if |v| == 0 then [] else [v[0] * c] + Scaled(v[1..], c)
  }

  lemma ScaledCons(v: seq<real>, c: real)
    requires |v| > 0
    ensures Scaled(v, c)[0] == v[0] * c && Scaled(v, c)[1..] == Scaled(v[1..], c)
  {
  }

  lemma {:induction false} ScaledAt(v: seq<real>, c: real, i: nat)
    requires i < |v|
    ensures Scaled(v, c)[i] == v[i] * c
  {
    if i > 0 {
      ScaledAt(v[1..], c, i - 1);
    }
  }

  /** `vec / np.linalg.norm(vec)`, with the reciprocal norm supplied. */
  function Normalize(v: seq<real>, scale: seq<real> -> real): (r: seq<real>)
    ensures |r| == |v|
    ensures forall i :: 0 <= i < |v| ==> r[i] == v[i] * scale(v)
  {
    forall i | 0 <= i < |v| ensures Scaled(v, scale(v))[i] == v[i] * scale(v) {
      ScaledAt(v, scale(v), i);
    }
    Scaled(v, scale(v))
  }

  /** The inner product the index ranks by. */
  function Dot(a: seq<real>, b: seq<real>): real
    requires |a| == |b|
  {
    if |a| == 0 then 0.0 else a[0] * b[0] + Dot(a[1..], b[1..])
  }

  /** Scaling the left factor of an inner product scales the product. */
  lemma {:induction false} DotScaledLeft(v: seq<real>, w: seq<real>, c: real)
    requires |v| == |w|
    ensures Dot(Scaled(v, c), w) == c * Dot(v, w)
  {
    if |v| > 0 {
      DotScaledLeft(v[1..], w[1..], c);
      ScaledCons(v, c);
      var sv := Scaled(v, c);
      var t := Dot(Scaled(v[1..], c), w[1..]);
      assert Dot(sv, w) == sv[0] * w[0] + t;
      StepLeft(v[0], w[0], c, sv[0], Dot(v[1..], w[1..]), t);
    }
  }

  lemma StepLeft(x: real, y: real, c: real, p: real, d: real, e: real)
    requires p == x * c && e == c * d
    ensures p * y + e == c * (x * y + d)
  {
  }

  /** Scaling the right factor of an inner product scales the product. */
  lemma {:induction false} DotScaledRight(v: seq<real>, w: seq<real>, c: real)
    requires |v| == |w|
    ensures Dot(v, Scaled(w, c)) == c * Dot(v, w)
  {
    if |v| > 0 {
      DotScaledRight(v[1..], w[1..], c);
      ScaledCons(w, c);
      var sw := Scaled(w, c);
      var t := Dot(v[1..], Scaled(w[1..], c));
      assert Dot(v, sw) == v[0] * sw[0] + t;
      StepRight(v[0], w[0], c, sw[0], Dot(v[1..], w[1..]), t);
    }
  }

  lemma StepRight(x: real, y: real, c: real, q: real, d: real, e: real)
    requires q == y * c && e == c * d
    ensures x * q + e == c * (x * y + d)
  {
  }

  lemma Chain(x: real, a: real, y: real, b: real, z: real)
    requires x == a * y && y == b * z
    ensures x == a * b * z
  {
  }

  /** Scaling both factors scales the inner product by both factors. */
  lemma DotScaledBoth(q: seq<real>, v: seq<real>, a: real, b: real)
    requires |q| == |v|
    ensures Dot(Scaled(q, a), Scaled(v, b)) == a * b * Dot(q, v)
  {
    var sv := Scaled(v, b);
    DotScaledLeft(q, sv, a);
    DotScaledRight(q, v, b);
    Chain(Dot(Scaled(q, a), sv), a, Dot(q, sv), b, Dot(q, v));
  }

  /** Normalising a query multiplies its inner product with every row by the one
      factor `scale(v)`: with a positive factor, the order of the rows by
      similarity is the order by the raw inner product. */
  lemma NormalizeScalesDot(v: seq<real>, w: seq<real>, scale: seq<real> -> real)
    requires |w| == |v|
    ensures Dot(Normalize(v, scale), w) == scale(v) * Dot(v, w)
  {
    DotScaledLeft(v, w, scale(v));
  }

  /** When `scale(v)` is the reciprocal of the L2 norm of `v`, the normalised
      vector has unit length. */
  lemma NormalizeUnit(v: seq<real>, scale: seq<real> -> real)
    requires scale(v) * scale(v) * Dot(v, v) == 1.0
    ensures Dot(Normalize(v, scale), Normalize(v, scale)) == 1.0
  {
    DotScaledBoth(v, v, scale(v), scale(v));
  }

  /** The score of a stored embedding against a query, both normalised, is their
      raw inner product times both reciprocal norms: the cosine similarity. */
  lemma NormalizedScore(q: seq<real>, v: seq<real>, scale: seq<real> -> real)
    requires |q| == |v|
    ensures Dot(Normalize(q, scale), Normalize(v, scale)) == scale(q) * scale(v) * Dot(q, v)
  {
    DotScaledBoth(q, v, scale(q), scale(v));
  }

  /** `add(embedding, metadata)`: the missing-id assertion fires before anything
      else; the index then rejects a vector of the wrong width. */
  function Add(s: Store, embedding: seq<real>, metadata: map<string, string>,
               scale: seq<real> -> real): (r: Result<Store>)
    requires Valid(s)
    ensures "chunk_id" !in metadata ==> r == Err(MissingChunkId)
    ensures "chunk_id" in metadata && |embedding| != s.dim ==>
              r == Err(DimensionMismatch(s.dim, |embedding|))
    ensures r.Ok? <==> "chunk_id" in metadata && |embedding| == s.dim
    ensures r.Ok? ==>
              && Valid(r.value)
              && r.value.dim == s.dim
              && r.value.idMap == s.idMap + [metadata["chunk_id"]]
              && r.value.vectors == s.vectors + [Normalize(embedding, scale)]
  {
    if "chunk_id" !in metadata then Err(MissingChunkId)
    else if |embedding| != s.dim then Err(DimensionMismatch(s.dim, |embedding|))
    else Ok(Store(s.dim, s.vectors + [Normalize(embedding, scale)], s.idMap + [metadata["chunk_id"]]))
  }

  /** One `add` call's arguments. */
  datatype Item = Item(embedding: seq<real>, metadata: map<string, string>)

  /** A sequence of `add` calls, stopping at the first that raises. */
  function AddAll(s: Store, items: seq<Item>, scale: seq<real> -> real): (r: Result<Store>)
    requires Valid(s)
    ensures r.Ok? ==> Valid(r.value) && r.value.dim == s.dim
    decreases |items|
  {
    if |items| == 0 then Ok(s)
    else
      var s' :- Add(s, items[0].embedding, items[0].metadata, scale);
      AddAll(s', items[1..], scale)
  }

  function ItemId(it: Item): string
    requires "chunk_id" in it.metadata
  {
    it.metadata["chunk_id"]
  }

  /** When every `add` succeeds, `id_map` lists the ids in call order and row `i`
      holds the normalised embedding of call `i`. */
  lemma {:induction false} AddAllInOrder(s: Store, items: seq<Item>, scale: seq<real> -> real)
    requires Valid(s)
    requires forall i :: 0 <= i < |items| ==>
               "chunk_id" in items[i].metadata && |items[i].embedding| == s.dim
    ensures AddAll(s, items, scale).Ok?
    ensures var r := AddAll(s, items, scale).value;
      && |r.idMap| == |s.idMap| + |items|
      && r.idMap[..|s.idMap|] == s.idMap
      && r.vectors[..|s.vectors|] == s.vectors
      && forall i :: 0 <= i < |items| ==>
           && r.idMap[|s.idMap| + i] == ItemId(items[i])
           && r.vectors[|s.vectors| + i] == Normalize(items[i].embedding, scale)
    decreases |items|
  {
    if |items| > 0 {
      var s' := Add(s, items[0].embedding, items[0].metadata, scale).value;
      AddAllInOrder(s', items[1..], scale);
      var r := AddAll(s', items[1..], scale).value;
      assert r.idMap[..|s'.idMap|] == s'.idMap;
      assert r.vectors[..|s'.vectors|] == s'.vectors;
      assert r.idMap[..|s.idMap|] == s'.idMap[..|s.idMap|];
      assert r.vectors[..|s.vectors|] == s'.vectors[..|s.vectors|];
      forall i | 0 <= i < |items|
        ensures r.idMap[|s.idMap| + i] == ItemId(items[i])
        ensures r.vectors[|s.vectors| + i] == Normalize(items[i].embedding, scale)
      {
        if i == 0 {
          assert r.idMap[|s.idMap|] == s'.idMap[|s.idMap|];
          assert r.vectors[|s.vectors|] == s'.vectors[|s.vectors|];
        } else {
          assert items[1..][i - 1] == items[i];
        }
      }
    }
  }

  // ---------------------------------------------------------------------------
  // The flat inner-product index
  // ---------------------------------------------------------------------------

  /** Every row with its similarity to `q`, in row order. */
  function Similarities(vectors: seq<seq<real>>, q: seq<real>): (r: seq<Slot>)
    requires forall i :: 0 <= i < |vectors| ==> |vectors[i]| == |q|
    ensures |r| == |vectors|
    ensures forall i :: 0 <= i < |r| ==> r[i] == Slot(i, Dot(q, vectors[i]))
  {
    seq(|vectors|, i requires 0 <= i < |vectors| => Slot(i, Dot(q, vectors[i])))
  }

  /** `index.search(vec, k)` for one query, `k > 0`: the `k` best rows by inner
      product, best first, equal scores in row order, and sentinel slots after
      the last row when `k` exceeds the row count. */
  function FlatSearch(vectors: seq<seq<real>>, q: seq<real>, k: nat): (r: seq<Slot>)
    requires forall i :: 0 <= i < |vectors| ==> |vectors[i]| == |q|
    ensures |r| == k
  {
    var top := PyTake(Ranking.SortDesc(Similarities(vectors, q), SlotScore), k);
    top + seq(k - |top|, _ => Slot(Sentinel, 0.0))
  }

  /** Row numbers the index can report: a real row or the sentinel. */
  ghost predicate InRange(slots: seq<Slot>, rows: nat) {
    forall i :: 0 <= i < |slots| ==> slots[i].idx == Sentinel || 0 <= slots[i].idx < rows
  }

  /** The result loop: map each row back through `id_map`, skipping sentinels. */
  function MapBack(idMap: seq<string>, slots: seq<Slot>): (r: seq<Hit>)
    requires InRange(slots, |idMap|)
    ensures |r| <= |slots|
    ensures forall h :: h in r ==> h.chunkId in idMap
  {
    if |slots| == 0 then []
    else
      (if slots[0].idx == Sentinel then [] else [Hit(idMap[slots[0].idx], slots[0].score)])
      + MapBack(idMap, slots[1..])
  }

  /** `search(query_embedding, top_k)`. */
  function Search(s: Store, query: seq<real>, topK: int, scale: seq<real> -> real): (r: Result<seq<Hit>>)
    requires Valid(s)
    ensures |s.idMap| == 0 ==> r == Ok([])
    ensures |s.idMap| > 0 && |query| != s.dim ==> r == Err(DimensionMismatch(s.dim, |query|))
    ensures |s.idMap| > 0 && |query| == s.dim && topK <= 0 ==> r == Err(InvalidTopK(topK))
    ensures r.Ok? ==>
              && |r.value| == Min(Max(topK, 0), |s.idMap|)
              && Ranking.SortedDesc(r.value, HitScore)
              && forall h :: h in r.value ==>
                   exists i :: 0 <= i < |s.idMap| && s.idMap[i] == h.chunkId
                            && h.score == Dot(Normalize(query, scale), s.vectors[i])
  {
    if |s.idMap| == 0 then Ok([])
    else if |query| != s.dim then Err(DimensionMismatch(s.dim, |query|))
    else if topK <= 0 then Err(InvalidTopK(topK))
    else
      var q := Normalize(query, scale);
      SearchHits(s, q, topK);
      Ok(MapBack(s.idMap, FlatSearch(s.vectors, q, topK)))
  }

  /** The index's answer before padding: real rows, each with its own score. */
  function Top(s: Store, q: seq<real>, k: nat): seq<Slot>
    requires Valid(s) && |q| == s.dim
  {
    PyTake(Ranking.SortDesc(Similarities(s.vectors, q), SlotScore), k)
  }

  lemma TopRows(s: Store, q: seq<real>, k: nat)
    requires Valid(s) && |q| == s.dim
    ensures var top := Top(s, q, k);
      && |top| == Min(k, |s.idMap|)
      && Ranking.SortedDesc(top, SlotScore)
      && forall j :: 0 <= j < |top| ==>
           0 <= top[j].idx < |s.idMap| && top[j].score == Dot(q, s.vectors[top[j].idx])
  {
    var sims := Similarities(s.vectors, q);
    var top := Top(s, q, k);
    forall j | 0 <= j < |top|
      ensures 0 <= top[j].idx < |s.idMap| && top[j].score == Dot(q, s.vectors[top[j].idx])
    {
      assert top[j] in multiset(sims);
    }
  }

  /** The padding the index adds maps back to nothing. */
  lemma FlatSearchTop(s: Store, q: seq<real>, k: nat)
    requires Valid(s) && |q| == s.dim && k > 0
    ensures InRange(FlatSearch(s.vectors, q, k), |s.idMap|)
    ensures InRange(Top(s, q, k), |s.idMap|)
    ensures MapBack(s.idMap, FlatSearch(s.vectors, q, k)) == MapBack(s.idMap, Top(s, q, k))
  {
    var top := Top(s, q, k);
    var pad := seq(k - |top|, _ => Slot(Sentinel, 0.0));
    TopRows(s, q, k);
    MapBackRows(s.idMap, top);
    MapBackSentinels(s.idMap, pad);
    MapBackAppend(s.idMap, top, pad);
    assert FlatSearch(s.vectors, q, k) == top + pad;
    assert MapBack(s.idMap, top + pad) == MapBack(s.idMap, top) + [];
  }

  lemma SearchHits(s: Store, q: seq<real>, k: nat)
    requires Valid(s) && |q| == s.dim && k > 0
    ensures InRange(FlatSearch(s.vectors, q, k), |s.idMap|)
    ensures var hits := MapBack(s.idMap, FlatSearch(s.vectors, q, k));
      && |hits| == Min(k, |s.idMap|)
      && Ranking.SortedDesc(hits, HitScore)
      && forall h :: h in hits ==>
           exists i :: 0 <= i < |s.idMap| && s.idMap[i] == h.chunkId && h.score == Dot(q, s.vectors[i])
  {
    var top := Top(s, q, k);
    TopRows(s, q, k);
    MapBackRows(s.idMap, top);
    FlatSearchTop(s, q, k);
    var hits := MapBack(s.idMap, top);
    assert forall j :: 0 <= j < |hits| ==> hits[j].score == top[j].score;
    forall h | h in hits
      ensures exists i :: 0 <= i < |s.idMap| && s.idMap[i] == h.chunkId && h.score == Dot(q, s.vectors[i])
    {
      var j :| 0 <= j < |hits| && hits[j] == h;
      assert h.chunkId == s.idMap[top[j].idx];
    }
  }

  /** The index's answer keeps the best rows: a row left out scores no higher
      than any row kept. */
  lemma TopBest(s: Store, q: seq<real>, k: nat)
    requires Valid(s) && |q| == s.dim
    ensures forall i :: 0 <= i < |s.idMap| ==>
      (Slot(i, Dot(q, s.vectors[i])) in Top(s, q, k)
       || forall y :: y in Top(s, q, k) ==> y.score >= Dot(q, s.vectors[i]))
  {
    var sims := Similarities(s.vectors, q);
    var sorted := Ranking.SortDesc(sims, SlotScore);
    Ranking.TakeBest(sorted, k, SlotScore);
    forall i | 0 <= i < |s.idMap| ensures Slot(i, Dot(q, s.vectors[i])) in sorted {
      assert sims[i] == Slot(i, Dot(q, s.vectors[i]));
      assert sims[i] in multiset(sorted);
    }
  }

  /** The same, for the hits the rows map back to. */
  lemma HitsBest(s: Store, q: seq<real>, k: nat)
    requires Valid(s) && |q| == s.dim
    ensures InRange(Top(s, q, k), |s.idMap|)
    ensures var hits := MapBack(s.idMap, Top(s, q, k));
      forall i :: 0 <= i < |s.idMap| ==>
        (Hit(s.idMap[i], Dot(q, s.vectors[i])) in hits
         || forall h :: h in hits ==> h.score >= Dot(q, s.vectors[i]))
  {
    var top := Top(s, q, k);
    TopRows(s, q, k);
    TopBest(s, q, k);
    MapBackRows(s.idMap, top);
    forall i | 0 <= i < |s.idMap|
      ensures var hits := MapBack(s.idMap, top);
        Hit(s.idMap[i], Dot(q, s.vectors[i])) in hits
        || forall h :: h in hits ==> h.score >= Dot(q, s.vectors[i])
    {
      MapBackBest(s.idMap, top, Slot(i, Dot(q, s.vectors[i])));
    }
  }

  /** A slot kept among `top`, or outscored by all of them, maps to a hit that is
      kept, or outscored by all hits. */
  lemma MapBackBest(idMap: seq<string>, top: seq<Slot>, x: Slot)
    requires forall j :: 0 <= j < |top| ==> 0 <= top[j].idx < |idMap|
    requires 0 <= x.idx < |idMap|
    requires x in top || forall y :: y in top ==> y.score >= x.score
    ensures InRange(top, |idMap|)
    ensures var hits := MapBack(idMap, top);
      Hit(idMap[x.idx], x.score) in hits || forall h :: h in hits ==> h.score >= x.score
  {
    MapBackRows(idMap, top);
    var hits := MapBack(idMap, top);
    if x in top {
      var j :| 0 <= j < |top| && top[j] == x;
      assert hits[j] == Hit(idMap[x.idx], x.score);
    } else {
      forall h | h in hits ensures h.score >= x.score {
        var j :| 0 <= j < |hits| && hits[j] == h;
        assert top[j] in top;
      }
    }
  }

  /** `search` keeps the best rows: every stored row is either returned, with its
      id and score, or outscored by every hit returned. */
  lemma SearchBest(s: Store, query: seq<real>, topK: int, scale: seq<real> -> real)
    requires Valid(s)
    ensures var r := Search(s, query, topK, scale);
      r.Ok? ==> forall i :: 0 <= i < |s.idMap| ==>
        (Hit(s.idMap[i], Dot(Normalize(query, scale), s.vectors[i])) in r.value
         || forall h :: h in r.value ==> h.score >= Dot(Normalize(query, scale), s.vectors[i]))
  {
    if |s.idMap| > 0 && |query| == s.dim && topK > 0 {
      var q := Normalize(query, scale);
      FlatSearchTop(s, q, topK);
      HitsBest(s, q, topK);
      assert Search(s, query, topK, scale) == Ok(MapBack(s.idMap, Top(s, q, topK)));
    }
  }

  /** With no sentinel among them, each slot becomes one hit, in order. */
  lemma {:induction false} MapBackRows(idMap: seq<string>, slots: seq<Slot>)
    requires forall j :: 0 <= j < |slots| ==> 0 <= slots[j].idx < |idMap|
    ensures InRange(slots, |idMap|)
    ensures var r := MapBack(idMap, slots);
      && |r| == |slots|
      && forall j :: 0 <= j < |slots| ==> r[j] == Hit(idMap[slots[j].idx], slots[j].score)
  {
    if |slots| > 0 {
      MapBackRows(idMap, slots[1..]);
    }
  }

  lemma {:induction false} MapBackAppend(idMap: seq<string>, a: seq<Slot>, b: seq<Slot>)
    requires InRange(a, |idMap|) && InRange(b, |idMap|)
    ensures InRange(a + b, |idMap|)
    ensures MapBack(idMap, a + b) == MapBack(idMap, a) + MapBack(idMap, b)
  {
    if |a| == 0 {
      assert a + b == b;
    } else {
      var head := if a[0].idx == Sentinel then [] else [Hit(idMap[a[0].idx], a[0].score)];
      assert (a + b)[0] == a[0] && (a + b)[1..] == a[1..] + b;
      MapBackAppend(idMap, a[1..], b);
      assert MapBack(idMap, a + b) == head + MapBack(idMap, a[1..] + b);
      assert MapBack(idMap, a) == head + MapBack(idMap, a[1..]);
    }
  }

  lemma {:induction false} MapBackSentinels(idMap: seq<string>, slots: seq<Slot>)
    requires forall j :: 0 <= j < |slots| ==> slots[j].idx == Sentinel
    ensures InRange(slots, |idMap|)
    ensures MapBack(idMap, slots) == []
  {
    if |slots| > 0 {
      MapBackSentinels(idMap, slots[1..]);
    }
  }

  /** `get_all_chunk_ids`: `set(self.id_map)`. */
  function AllChunkIds(s: Store): (r: set<string>)
    ensures forall id :: id in r <==> exists i :: 0 <= i < |s.idMap| && s.idMap[i] == id
  {
    set i | 0 <= i < |s.idMap| :: s.idMap[i]
  }

  /** Every id a search returns is one `get_all_chunk_ids` reports. */
  lemma SearchWithinAllIds(s: Store, query: seq<real>, topK: int, scale: seq<real> -> real)
    requires Valid(s)
    ensures var r := Search(s, query, topK, scale);
      r.Ok? ==> forall h :: h in r.value ==> h.chunkId in AllChunkIds(s)
  {
  }
}
