/** The lexical index of storage/bm25_store.py: an append-only Okapi BM25 store.
    Scores are real numbers; the natural logarithm is a parameter `ln`, since the
    verifier has none. */
module Bm25 {
  import opened Base
  import opened Chars
  import Ranking

  const DefaultK1: real := 1.5
  const DefaultB: real := 0.75

  /** The index state. `order` lists the chunk ids in first-insertion order, which
      is the iteration order of the Python dict `documents`. */
  datatype Store = Store(
    k1: real,
    b: real,
    order: seq<string>,
    documents: map<string, seq<string>>,
    docLen: map<string, nat>,
    df: map<string, nat>,
    n: nat,
    avgdl: real)

  // ---------------------------------------------------------------------------
  // Tokenizer
  // ---------------------------------------------------------------------------

  /** A token the tokenizer can emit: non-empty, alphanumeric, lower-case. */
  predicate IsToken(t: string) {
    IsAlnumWord(t) && forall i :: 0 <= i < |t| ==> !IsUpper(t[i])
  }

  /** `[w for w in ws if w.isalnum()]`. */
  function KeepAlnum(ws: seq<string>): (r: seq<string>)
    ensures forall i :: 0 <= i < |r| ==> IsAlnumWord(r[i])
    ensures forall w :: w in r ==> w in ws
  {
    if |ws| == 0 then []
    else if IsAlnumWord(ws[0]) then [ws[0]] + KeepAlnum(ws[1..])
    else KeepAlnum(ws[1..])
  }

  lemma {:induction false} KeepAlnumSubsequence(ws: seq<string>)
    ensures IsSubsequence(KeepAlnum(ws), ws)
  {
    if |ws| > 0 {
      KeepAlnumSubsequence(ws[1..]);
      if !IsAlnumWord(ws[0]) && |KeepAlnum(ws[1..])| > 0 {
        var r := KeepAlnum(ws[1..]);
        assert r[0] in ws[1..];
        assert IsAlnumWord(r[0]);
        if r[0] == ws[0] { assert false; }
      }
    }
  }

  lemma {:induction false} KeepAlnumAppend(a: seq<string>, b: seq<string>)
    ensures KeepAlnum(a + b) == KeepAlnum(a) + KeepAlnum(b)
  {
    if |a| > 0 {
      KeepAlnumAppend(a[1..], b);
      assert (a + b)[1..] == a[1..] + b;
    } else {
      assert a + b == b;
    }
  }

  /** Every piece `str.split()` makes of lower-cased text is free of upper case. */
  lemma {:induction false} SplitOfLowerHasNoUpper(s: string)
    requires forall i :: 0 <= i < |s| ==> !IsUpper(s[i])
    ensures forall i, k :: 0 <= i < |Split(s)| && 0 <= k < |Split(s)[i]| ==> !IsUpper(Split(s)[i][k])
    decreases |s|
  {
    if |s| > 0 {
      if IsSpace(s[0]) {
        SplitOfLowerHasNoUpper(s[1..]);
      } else {
        var n := WordLen(s);
        SplitOfLowerHasNoUpper(s[n..]);
        var r := Split(s);
        assert r == [s[..n]] + Split(s[n..]);
        forall i, k | 0 <= i < |r| && 0 <= k < |r[i]| ensures !IsUpper(r[i][k]) {
          if i == 0 {
            assert r[0][k] == s[k];
          } else {
            assert r[i] == Split(s[n..])[i - 1];
          }
        }
      }
    }
  }

  /** `_tokenize`: lower-case, split on whitespace, keep alphanumeric pieces. */
  function Tokenize(text: string): (r: seq<string>)
    ensures forall i :: 0 <= i < |r| ==> IsToken(r[i])
    ensures IsSubsequence(r, Split(Lower(text)))
  {
    var pieces := Split(Lower(text));
    SplitOfLowerHasNoUpper(Lower(text));
    KeepAlnumSubsequence(pieces);
    var r := KeepAlnum(pieces);
    assert forall i :: 0 <= i < |r| ==> r[i] in pieces;
    r
  }

  lemma LowerAtSpace(a: string, c: char, b: string)
    requires IsSpace(c)
    ensures Lower(a + [c] + b) == Lower(a) + [c] + Lower(b)
  {
  }

  /** Tokenizing distributes over whitespace. */
  lemma TokenizeAtSpace(a: string, c: char, b: string)
    requires IsSpace(c)
    ensures Tokenize(a + [c] + b) == Tokenize(a) + Tokenize(b)
  {
    LowerAtSpace(a, c, b);
    SplitAtSpace(Lower(a), c, Lower(b));
    KeepAlnumAppend(Split(Lower(a)), Split(Lower(b)));
  }

  /** A single alphanumeric word tokenizes to its lower-case form; any other
      whitespace-free word (one with punctuation, say) is dropped. */
  lemma TokenizeWord(w: string)
    requires IsWord(w)
    ensures IsAlnumWord(w) ==> Tokenize(w) == [Lower(w)]
    ensures !IsAlnumWord(w) ==> Tokenize(w) == []
  {
    assert IsWord(Lower(w));
    SplitWord(Lower(w));
    assert KeepAlnum([Lower(w)]) == (if IsAlnumWord(Lower(w)) then [Lower(w)] else []) + KeepAlnum([]);
  }

  // ---------------------------------------------------------------------------
  // Index state
  // ---------------------------------------------------------------------------

  /** `sum(doc_len.values())`, summed in insertion order. */
  function TotalLen(order: seq<string>, docLen: map<string, nat>): nat
  {
    if |order| == 0 then 0
    else TotalLen(order[..|order| - 1], docLen)
         + (if order[|order| - 1] in docLen then docLen[order[|order| - 1]] else 0)
  }

  /** `self.df.get(term, 0)`. */
  function DocFreq(s: Store, t: string): nat {
    if t in s.df then s.df[t] else 0
  }

  /** The invariant every reachable store keeps. */
  ghost predicate Valid(s: Store) {
    && 0.0 <= s.k1 && 0.0 <= s.b <= 1.0
    && Distinct(s.order)
    && (forall id :: id in s.documents <==> id in s.order)
    && s.docLen.Keys == s.documents.Keys
    && (forall id :: id in s.documents ==> |s.documents[id]| > 0 && s.docLen[id] == |s.documents[id]|)
    && |s.order| <= s.n
    && (s.n == 0 <==> |s.order| == 0)
    && (forall t :: t in s.df ==> s.df[t] <= s.n)
    && s.avgdl == (if s.n == 0 then 0.0 else TotalLen(s.order, s.docLen) as real / s.n as real)
    && (s.n > 0 ==> s.avgdl > 0.0)
  }

  /** `BM25Store(k1, b)`: an empty index. */
  function Init(k1: real, b: real): (s: Store)
    requires 0.0 <= k1 && 0.0 <= b <= 1.0
    ensures Valid(s)
    ensures s.n == 0 && s.avgdl == 0.0 && s.documents == map[] && s.df == map[]
  {
    Store(k1, b, [], map[], map[], map[], 0, 0.0)
  }

  /** Document frequencies after adding a document with tokens `tokens`: every
      distinct token gains one, whatever its multiplicity. */
  function BumpDf(df: map<string, nat>, tokens: seq<string>): (r: map<string, nat>)
    ensures forall t :: t in r <==> t in df || t in tokens
    ensures forall t :: t in r ==> r[t] == (if t in df then df[t] else 0) + (if t in tokens then 1 else 0)
  {
    map t | t in df.Keys + (set x | x in tokens) :: (if t in df then df[t] else 0) + (if t in tokens then 1 else 0)
  }

  lemma {:induction false} TotalLenPositive(order: seq<string>, docLen: map<string, nat>)
    requires |order| > 0
    requires forall id :: id in order ==> id in docLen && docLen[id] > 0
    ensures TotalLen(order, docLen) > 0
  {
    if |order| > 1 {
      TotalLenPositive(order[..|order| - 1], docLen);
    }
  }

  /** The store `add` builds once `text` has produced at least one token. */
  function Grow(s: Store, chunkId: string, tokens: seq<string>): Store
  {
    var order := if chunkId in s.documents then s.order else s.order + [chunkId];
    var docLen := s.docLen[chunkId := |tokens|];
    Store(s.k1, s.b, order, s.documents[chunkId := tokens], docLen, BumpDf(s.df, tokens),
          s.n + 1, TotalLen(order, docLen) as real / (s.n + 1) as real)
  }

  lemma QuotientPositive(a: nat, b: nat)
    requires a > 0 && b > 0
    ensures a as real / b as real > 0.0
  {
  }

  lemma GrowOrder(s: Store, chunkId: string, tokens: seq<string>)
    requires Valid(s)
    ensures var r := Grow(s, chunkId, tokens);
      && Distinct(r.order)
      && (forall id :: id in r.documents <==> id in r.order)
      && |r.order| <= r.n && |r.order| > 0
  {
    var r := Grow(s, chunkId, tokens);
    if chunkId !in s.documents {
      assert chunkId !in s.order;
      forall i, j | 0 <= i < j < |r.order| ensures r.order[i] != r.order[j] {
        if j == |s.order| { assert r.order[i] == s.order[i]; }
      }
    }
  }

  lemma GrowLengths(s: Store, chunkId: string, tokens: seq<string>)
    requires Valid(s) && |tokens| > 0
    ensures var r := Grow(s, chunkId, tokens);
      && r.docLen.Keys == r.documents.Keys
      && (forall id :: id in r.documents ==> |r.documents[id]| > 0 && r.docLen[id] == |r.documents[id]|)
  {
  }

  lemma GrowDf(s: Store, chunkId: string, tokens: seq<string>)
    requires Valid(s)
    ensures var r := Grow(s, chunkId, tokens);
      forall t :: t in r.df ==> r.df[t] <= r.n
  {
    var r := Grow(s, chunkId, tokens);
    forall t | t in r.df ensures r.df[t] <= r.n {
      if t in s.df { assert s.df[t] <= s.n; }
    }
  }

  lemma GrowValid(s: Store, chunkId: string, tokens: seq<string>)
    requires Valid(s) && |tokens| > 0
    ensures Valid(Grow(s, chunkId, tokens))
  {
    var r := Grow(s, chunkId, tokens);
    GrowOrder(s, chunkId, tokens);
    GrowLengths(s, chunkId, tokens);
    GrowDf(s, chunkId, tokens);
    assert forall id :: id in r.order ==> id in r.docLen && r.docLen[id] > 0;
    TotalLenPositive(r.order, r.docLen);
    QuotientPositive(TotalLen(r.order, r.docLen), r.n);
  }

  /** `add(chunk_id, text)`. */
  function Add(s: Store, chunkId: string, text: string): (r: Store)
    requires Valid(s)
    ensures Valid(r)
    ensures r.k1 == s.k1 && r.b == s.b
    ensures Tokenize(text) == [] ==> r == s
    ensures Tokenize(text) != [] ==>
      && r.n == s.n + 1
      && r.documents == s.documents[chunkId := Tokenize(text)]
      && r.docLen == s.docLen[chunkId := |Tokenize(text)|]
      && r.order == (if chunkId in s.documents then s.order else s.order + [chunkId])
      && (forall t :: DocFreq(r, t) == DocFreq(s, t) + (if t in Tokenize(text) then 1 else 0))
      && r.avgdl == TotalLen(r.order, r.docLen) as real / r.n as real
  {
    var tokens := Tokenize(text);
    if |tokens| == 0 then s
    else
      GrowValid(s, chunkId, tokens);
      Grow(s, chunkId, tokens)
  }

  // ---------------------------------------------------------------------------
  // Scoring
  // ---------------------------------------------------------------------------

  /** `Counter(tokens)[t]`. */
  function Count(ts: seq<string>, t: string): (c: nat)
    ensures c == multiset(ts)[t]
    ensures c > 0 <==> t in ts
    ensures c <= |ts|
  {
    if |ts| == 0 then 0
    else
      assert ts == [ts[0]] + ts[1..];
      (if ts[0] == t then 1 else 0) + Count(ts[1..], t)
  }

  /** The BM25 term-frequency factor `tf*(k1+1) / (tf + k1*(1 - b + b*dl/avgdl))`. */
  function Saturation(tf: real, k1: real, b: real, dl: real, avgdl: real): real
    requires tf > 0.0 && 0.0 <= k1 && 0.0 <= b <= 1.0 && dl >= 0.0 && avgdl > 0.0
  {
    assert b * dl / avgdl >= 0.0;
    assert k1 * (1.0 - b + b * dl / avgdl) >= 0.0;
    (tf * (k1 + 1.0)) / (tf + k1 * (1.0 - b + b * dl / avgdl))
  }

  /** `_idf`: `ln(1 + (N - df + 0.5) / (df + 0.5))`. */
  function Idf(s: Store, t: string, ln: real -> real): real {
    var df := DocFreq(s, t) as real;
    ln(1.0 + (s.n as real - df + 0.5) / (df + 0.5))
  }

  /** One query-term occurrence's contribution to a chunk that contains the term;
      `idf * (f*(k1+1)) / denom` equals `idf * ((f*(k1+1)) / denom)` over the reals. */
  function TermScore(s: Store, chunkId: string, t: string, ln: real -> real): real
    requires Valid(s) && chunkId in s.documents && t in s.documents[chunkId]
  {
    Idf(s, t, ln) * Saturation(Count(s.documents[chunkId], t) as real, s.k1, s.b,
                               s.docLen[chunkId] as real, s.avgdl)
  }

  /** The score `search` accumulates for one chunk: terms absent from the chunk are
      skipped, every occurrence of a term in the query contributes. */
  function DocScore(s: Store, chunkId: string, terms: seq<string>, ln: real -> real): real
    requires Valid(s) && chunkId in s.documents
  {
    if |terms| == 0 then 0.0
    else
      (if terms[0] in s.documents[chunkId] then TermScore(s, chunkId, terms[0], ln) else 0.0)
      + DocScore(s, chunkId, terms[1..], ln)
  }

  /** The query's terms contribute independently: a term repeated in the query
      counts once per occurrence. */
  lemma {:induction false} DocScoreAppend(s: Store, chunkId: string, a: seq<string>, b: seq<string>,
                                          ln: real -> real)
    requires Valid(s) && chunkId in s.documents
    ensures DocScore(s, chunkId, a + b, ln) == DocScore(s, chunkId, a, ln) + DocScore(s, chunkId, b, ln)
  {
    if |a| == 0 {
      assert a + b == b;
    } else {
      assert (a + b)[0] == a[0] && (a + b)[1..] == a[1..] + b;
      DocScoreAppend(s, chunkId, a[1..], b, ln);
    }
  }

  /** The chunks in `ids` with a positive score, each with that score. */
  function Candidates(s: Store, ids: seq<string>, terms: seq<string>, ln: real -> real): (r: seq<Hit>)
    requires Valid(s) && forall id :: id in ids ==> id in s.documents
    ensures forall h :: h in r ==>
              h.chunkId in ids && h.score > 0.0 && h.score == DocScore(s, h.chunkId, terms, ln)
  {
    if |ids| == 0 then []
    else
      var score := DocScore(s, ids[0], terms, ln);
      (if score > 0.0 then [Hit(ids[0], score)] else []) + Candidates(s, ids[1..], terms, ln)
  }

  /** How many stored chunks score above zero: by `Candidates` and
      `CandidatesComplete`, the candidates are exactly those chunks. */
  function Found(s: Store, terms: seq<string>, ln: real -> real): nat
    requires Valid(s)
  {
    |Candidates(s, s.order, terms, ln)|
  }

  /** All positive-scoring chunks, best first, ties in insertion order. */
  function Ranked(s: Store, terms: seq<string>, ln: real -> real): seq<Hit>
    requires Valid(s)
  {
    Ranking.SortDesc(Candidates(s, s.order, terms, ln), HitScore)
  }

  /** A ranked hit is a matching chunk with its own positive score. */
  lemma RankedHit(s: Store, terms: seq<string>, ln: real -> real, h: Hit)
    requires Valid(s) && h in Ranked(s, terms, ln)
    ensures h.score > 0.0 && h.chunkId in s.documents && h.score == DocScore(s, h.chunkId, terms, ln)
    ensures exists t :: t in terms && t in s.documents[h.chunkId]
  {
    assert h in multiset(Ranked(s, terms, ln));
    assert h in Candidates(s, s.order, terms, ln);
    if forall t :: t in terms ==> t !in s.documents[h.chunkId] {
      DocScoreWithoutMatch(s, h.chunkId, terms, ln);
    }
  }

  /** A chunk that contains none of the terms scores zero. */
  lemma {:induction false} DocScoreWithoutMatch(s: Store, chunkId: string, terms: seq<string>, ln: real -> real)
    requires Valid(s) && chunkId in s.documents
    requires forall t :: t in terms ==> t !in s.documents[chunkId]
    ensures DocScore(s, chunkId, terms, ln) == 0.0
  {
    if |terms| > 0 {
      DocScoreWithoutMatch(s, chunkId, terms[1..], ln);
    }
  }

  /** `search(query, top_k)`. */
  function Search(s: Store, query: string, topK: int, ln: real -> real): (r: seq<Hit>)
    requires Valid(s)
    ensures query == "" || s.n == 0 || Tokenize(query) == [] ==> r == []
    ensures topK >= 0 ==> |r| <= topK
    ensures query != "" && s.n > 0 ==>
              |r| == (if topK >= 0 then Min(topK, Found(s, Tokenize(query), ln))
                      else Max(Found(s, Tokenize(query), ln) + topK, 0))
    ensures Ranking.SortedDesc(r, HitScore)
    ensures forall h :: h in r ==>
              && h.score > 0.0
              && h.chunkId in s.documents
              && h.score == DocScore(s, h.chunkId, Tokenize(query), ln)
              && (exists t :: t in Tokenize(query) && t in s.documents[h.chunkId])
  {
    if query == "" || s.n == 0 then []
    else
      var terms := Tokenize(query);
      RankedHitsMatch(s, terms, topK, ln);
      RankedLength(s, terms, topK, ln);
      PyTake(Ranked(s, terms, ln), topK)
  }

  lemma RankedHitsMatch(s: Store, terms: seq<string>, topK: int, ln: real -> real)
    requires Valid(s)
    ensures terms == [] ==> Ranked(s, terms, ln) == []
    ensures topK >= 0 ==> |PyTake(Ranked(s, terms, ln), topK)| <= topK
    ensures Ranking.SortedDesc(PyTake(Ranked(s, terms, ln), topK), HitScore)
    ensures forall h :: h in PyTake(Ranked(s, terms, ln), topK) ==>
              && h.score > 0.0
              && h.chunkId in s.documents
              && h.score == DocScore(s, h.chunkId, terms, ln)
              && (exists t :: t in terms && t in s.documents[h.chunkId])
  {
    Ranking.TakeSorted(Ranked(s, terms, ln), topK, HitScore);
    TakenHitsMatch(s, terms, topK, ln);
    if terms == [] {
      CandidatesWithoutTerms(s, s.order, ln);
    }
  }

  /** Each hit kept by the truncation is a ranked hit. */
  lemma TakenHitsMatch(s: Store, terms: seq<string>, topK: int, ln: real -> real)
    requires Valid(s)
    ensures forall h :: h in PyTake(Ranked(s, terms, ln), topK) ==>
              && h.score > 0.0
              && h.chunkId in s.documents
              && h.score == DocScore(s, h.chunkId, terms, ln)
              && (exists t :: t in terms && t in s.documents[h.chunkId])
  {
    var ranked := Ranked(s, terms, ln);
    var r := PyTake(ranked, topK);
    forall h | h in r
      ensures h.score > 0.0 && h.chunkId in s.documents && h.score == DocScore(s, h.chunkId, terms, ln)
      ensures exists t :: t in terms && t in s.documents[h.chunkId]
    {
      assert h in ranked;
      RankedHit(s, terms, ln, h);
    }
  }

  /** Truncating the ranking to `top_k` keeps `min(top_k, found)` hits, Python's
      slice semantics for a negative `top_k`. */
  lemma RankedLength(s: Store, terms: seq<string>, topK: int, ln: real -> real)
    requires Valid(s)
    ensures |PyTake(Ranked(s, terms, ln), topK)|
         == (if topK >= 0 then Min(topK, Found(s, terms, ln)) else Max(Found(s, terms, ln) + topK, 0))
  {
  }

  /** Every listed chunk with a positive score is a candidate, with that score. */
  lemma {:induction false} CandidatesComplete(s: Store, ids: seq<string>, terms: seq<string>, ln: real -> real,
                                              id: string)
    requires Valid(s) && forall x :: x in ids ==> x in s.documents
    requires id in ids && DocScore(s, id, terms, ln) > 0.0
    ensures Hit(id, DocScore(s, id, terms, ln)) in Candidates(s, ids, terms, ln)
  {
    if ids[0] != id {
      CandidatesComplete(s, ids[1..], terms, ln, id);
    }
  }

  /** Every positive-scoring chunk is ranked, with its score. */
  lemma RankedComplete(s: Store, terms: seq<string>, ln: real -> real)
    requires Valid(s)
    ensures forall id :: id in s.documents && DocScore(s, id, terms, ln) > 0.0 ==>
              Hit(id, DocScore(s, id, terms, ln)) in Ranked(s, terms, ln)
  {
    var ranked := Ranked(s, terms, ln);
    forall id | id in s.documents && DocScore(s, id, terms, ln) > 0.0
      ensures Hit(id, DocScore(s, id, terms, ln)) in ranked
    {
      CandidatesComplete(s, s.order, terms, ln, id);
      assert Hit(id, DocScore(s, id, terms, ln)) in multiset(ranked);
    }
  }

  /** `search` keeps the best chunks: a chunk with a positive score is either
      returned with that score or outscored by every chunk returned. */
  lemma SearchBest(s: Store, query: string, topK: int, ln: real -> real)
    requires Valid(s)
    ensures var r := Search(s, query, topK, ln);
      forall id :: id in s.documents && DocScore(s, id, Tokenize(query), ln) > 0.0 ==>
        (Hit(id, DocScore(s, id, Tokenize(query), ln)) in r
         || forall h :: h in r ==> h.score >= DocScore(s, id, Tokenize(query), ln))
  {
    if query != "" && s.n != 0 {
      var terms := Tokenize(query);
      Ranking.TakeBest(Ranked(s, terms, ln), topK, HitScore);
      RankedComplete(s, terms, ln);
    }
  }

  /** When `search` returns fewer than `top_k` hits, it has returned every chunk
      with a positive score. */
  lemma SearchComplete(s: Store, query: string, topK: int, ln: real -> real)
    requires Valid(s)
    ensures var r := Search(s, query, topK, ln);
      forall id :: id in s.documents && DocScore(s, id, Tokenize(query), ln) > 0.0 && |r| < topK ==>
        Hit(id, DocScore(s, id, Tokenize(query), ln)) in r
  {
    if query == "" {
      assert Tokenize(query) == [];
      forall id | id in s.documents ensures DocScore(s, id, Tokenize(query), ln) == 0.0 {
        DocScoreWithoutMatch(s, id, Tokenize(query), ln);
      }
    } else if s.n != 0 {
      var terms := Tokenize(query);
      var ranked := Ranked(s, terms, ln);
      RankedComplete(s, terms, ln);
      var r := PyTake(ranked, topK);
      if |r| < topK {
        assert r == ranked[..|ranked|] == ranked;
      }
    }
  }

  /** Candidates with equal scores appear in the order of `ids`. */
  lemma {:induction false} CandidatesClassSubsequence(s: Store, ids: seq<string>, terms: seq<string>,
                                                      ln: real -> real, v: real)
    requires Valid(s) && forall x :: x in ids ==> x in s.documents
    ensures IsSubsequence(Ranking.Project(Ranking.KeyClass(Candidates(s, ids, terms, ln), HitScore, v), HitId), ids)
  {
    if |ids| > 0 {
      CandidatesClassSubsequence(s, ids[1..], terms, ln, v);
      var score := DocScore(s, ids[0], terms, ln);
      var rest := Candidates(s, ids[1..], terms, ln);
      var tail := Ranking.Project(Ranking.KeyClass(rest, HitScore, v), HitId);
      if score > 0.0 && score == v {
        var h := Hit(ids[0], score);
        assert Candidates(s, ids, terms, ln) == [h] + rest;
        assert ([h] + rest)[1..] == rest;
        assert Ranking.KeyClass([h] + rest, HitScore, v) == [h] + Ranking.KeyClass(rest, HitScore, v);
        var whole := Ranking.Project([h] + Ranking.KeyClass(rest, HitScore, v), HitId);
        assert whole[0] == ids[0] && whole[1..] == tail;
      } else {
        if score > 0.0 {
          var h := Hit(ids[0], score);
          assert Candidates(s, ids, terms, ln) == [h] + rest;
          assert ([h] + rest)[1..] == rest;
          assert Ranking.KeyClass([h] + rest, HitScore, v) == Ranking.KeyClass(rest, HitScore, v);
        } else {
          assert Candidates(s, ids, terms, ln) == [] + rest;
          assert [] + rest == rest;
        }
        SubsequenceSkip(tail, ids);
      }
    }
  }

  /** Hits with equal scores keep the order in which their chunks were first
      added: the sort is stable and candidates are scanned in insertion order. */
  lemma SearchTiesInInsertionOrder(s: Store, query: string, topK: int, ln: real -> real, v: real)
    requires Valid(s)
    ensures IsSubsequence(Ranking.Project(Ranking.KeyClass(Search(s, query, topK, ln), HitScore, v), HitId),
                          s.order)
  {
    var r := Search(s, query, topK, ln);
    if query != "" && s.n != 0 {
      var ranked := Ranked(s, Tokenize(query), ln);
      assert r == ranked[..|r|];
      RankedPrefixTies(s, Tokenize(query), ln, |r|, v);
    } else {
      assert r == [];
    }
  }

  /** Any prefix of the ranking lists equal-score hits in insertion order. */
  lemma RankedPrefixTies(s: Store, terms: seq<string>, ln: real -> real, n: nat, v: real)
    requires Valid(s) && n <= |Ranked(s, terms, ln)|
    ensures IsSubsequence(Ranking.Project(Ranking.KeyClass(Ranked(s, terms, ln)[..n], HitScore, v), HitId),
                          s.order)
  {
    var cands := Candidates(s, s.order, terms, ln);
    CandidatesClassSubsequence(s, s.order, terms, ln, v);
    Ranking.SortedPrefixClass(cands, n, HitScore, v, HitId, s.order);
  }

  lemma {:induction false} CandidatesWithoutTerms(s: Store, ids: seq<string>, ln: real -> real)
    requires Valid(s) && forall id :: id in ids ==> id in s.documents
    ensures Candidates(s, ids, [], ln) == []
  {
    if |ids| > 0 {
      CandidatesWithoutTerms(s, ids[1..], ln);
    }
  }
}
