/** agents/retrieval_validation.py: the admission gate between retrieval and
    answering. Six checks run in a fixed order and the first that fails is the
    one reported; chunk text is loaded only once the four score checks pass,
    and only for the top three chunks. */
module RetrievalValidation {
  import opened Base
  import opened Chars
  import opened AgentState

  const MinAvgScore: real := 0.25
  const MinRecall: real := 0.4
  const MinRelevantRatio: real := 0.5
  const MinContextTokens: nat := 150
  const TopNValidate: nat := 3

  // ---------------------------------------------------------------------------
  // The four helpers
  // ---------------------------------------------------------------------------

  /** `estimate_recall(chunks, k)`: `len(chunks)/k`, or 0.0 when `k` is 0. */
  function EstimateRecall(n: nat, k: int): (r: real)
    ensures k == 0 ==> r == 0.0
    ensures k != 0 ==> r * (k as real) == n as real
    ensures k > 0 && n >= k ==> r >= 1.0
  {
    if k != 0 then n as real / k as real else 0.0
  }

  /** How many scores reach the strength threshold. */
  function StrongCount(scores: seq<real>): (c: nat)
    ensures c <= |scores|
  {
    if |scores| == 0 then 0
    else (if scores[0] >= MinAvgScore then 1 else 0) + StrongCount(scores[1..])
  }

  /** `relevant_ratio(scores)`: the fraction of scores that are at least 0.25. */
  function RelevantRatio(scores: seq<real>): (r: real)
    ensures |scores| == 0 ==> r == 0.0
    ensures 0.0 <= r <= 1.0
    ensures |scores| > 0 ==> r * (|scores| as real) == StrongCount(scores) as real
  {
    if |scores| == 0 then 0.0 else StrongCount(scores) as real / |scores| as real
  }

  /** Every score strong gives ratio one; none strong gives zero. */
  lemma RelevantRatioExtremes(scores: seq<real>)
    requires |scores| > 0
    ensures (forall i :: 0 <= i < |scores| ==> scores[i] >= MinAvgScore) ==> RelevantRatio(scores) == 1.0
    ensures (forall i :: 0 <= i < |scores| ==> scores[i] < MinAvgScore) ==> RelevantRatio(scores) == 0.0
  {
    if forall i :: 0 <= i < |scores| ==> scores[i] >= MinAvgScore {
      StrongCountAll(scores);
    }
    if forall i :: 0 <= i < |scores| ==> scores[i] < MinAvgScore {
      StrongCountNone(scores);
    }
  }

  lemma {:induction false} StrongCountAll(scores: seq<real>)
    requires forall i :: 0 <= i < |scores| ==> scores[i] >= MinAvgScore
    ensures StrongCount(scores) == |scores|
  {
    if |scores| > 0 { StrongCountAll(scores[1..]); }
  }

  lemma {:induction false} StrongCountNone(scores: seq<real>)
    requires forall i :: 0 <= i < |scores| ==> scores[i] < MinAvgScore
    ensures StrongCount(scores) == 0
  {
    if |scores| > 0 { StrongCountNone(scores[1..]); }
  }

  /** The whitespace-token count of all chunk texts. */
  function TokenCount(chunks: seq<Chunk>): nat {
    if |chunks| == 0 then 0 else |Split(chunks[0].text)| + TokenCount(chunks[1..])
  }

  /** `context_sufficient(chunks)`. */
  predicate ContextSufficient(chunks: seq<Chunk>) {
    TokenCount(chunks) >= MinContextTokens
  }

  lemma {:induction false} TokenCountAppend(a: seq<Chunk>, b: seq<Chunk>)
    ensures TokenCount(a + b) == TokenCount(a) + TokenCount(b)
  {
    if |a| == 0 {
      assert a + b == b;
    } else {
      assert (a + b)[1..] == a[1..] + b;
      TokenCountAppend(a[1..], b);
    }
  }

  /** More context never makes sufficient context insufficient. */
  lemma ContextSufficientMonotone(a: seq<Chunk>, b: seq<Chunk>)
    requires ContextSufficient(a)
    ensures ContextSufficient(a + b) && ContextSufficient(b + a)
  {
    TokenCountAppend(a, b);
    TokenCountAppend(b, a);
  }

  /** The all-digit whitespace tokens of the chunk texts, in order. */
  function Numbers(chunks: seq<Chunk>): (r: seq<string>)
    ensures forall i :: 0 <= i < |r| ==> IsDigitWord(r[i])
  {
    if |chunks| == 0 then [] else DigitTokens(Split(chunks[0].text)) + Numbers(chunks[1..])
  }

  function DigitTokens(ws: seq<string>): (r: seq<string>)
    ensures forall i :: 0 <= i < |r| ==> IsDigitWord(r[i])
    ensures forall w :: w in r ==> w in ws
  {
    if |ws| == 0 then []
    else (if IsDigitWord(ws[0]) then [ws[0]] else []) + DigitTokens(ws[1..])
  }

  /** `has_conflicts(chunks)`: more than one distinct number. */
  predicate HasConflicts(chunks: seq<Chunk>) {
    |NumberSet(chunks)| > 1
  }

  /** `set(numbers)`. */
  function NumberSet(chunks: seq<Chunk>): set<string> {
    set x | x in Numbers(chunks)
  }

  /** Conflict means two different numbers occur; one number repeated any number
      of times is not a conflict. */
  lemma HasConflictsIff(chunks: seq<Chunk>)
    ensures HasConflicts(chunks) <==>
              exists i, j :: 0 <= i < j < |Numbers(chunks)| && Numbers(chunks)[i] != Numbers(chunks)[j]
  {
    var ns := Numbers(chunks);
    var set_ := NumberSet(chunks);
    if exists i, j :: 0 <= i < j < |ns| && ns[i] != ns[j] {
      var i, j :| 0 <= i < j < |ns| && ns[i] != ns[j];
      var pair := {ns[i], ns[j]};
      assert ns[i] in ns && ns[j] in ns;
      assert ns[i] in set_ && ns[j] in set_;
      assert pair <= set_;
      assert pair == {ns[i]} + {ns[j]} && {ns[i]} * {ns[j]} == {};
      assert |pair| == 2;
      SubsetCard(pair, set_);
      assert |set_| >= 2;
      assert HasConflicts(chunks);
      assert exists i, j :: 0 <= i < j < |Numbers(chunks)| && Numbers(chunks)[i] != Numbers(chunks)[j];
    } else if |ns| > 0 {
      assert set_ == {ns[0]} by {
        forall x | x in set_ ensures x == ns[0] {
          var i :| 0 <= i < |ns| && ns[i] == x;
          if i > 0 { assert !(ns[0] != ns[i]); }
        }
      }
    } else {
      assert set_ == {};
    }
  }

  lemma SubsetCard<T>(a: set<T>, b: set<T>)
    requires a <= b
    ensures |a| <= |b|
  {
    assert b == a + (b - a);
  }

  // ---------------------------------------------------------------------------
  // The node
  // ---------------------------------------------------------------------------

  function Sum(xs: seq<real>): real {
    if |xs| == 0 then 0.0 else xs[0] + Sum(xs[1..])
  }

  /** `sum(scores) / len(scores)`. */
  function Average(scores: seq<real>): real
    requires |scores| > 0
  {
    Sum(scores) / |scores| as real
  }

  /** What the gates look at: the chunk references, the scores, `top_k`. */
  function ChunkRefs(s: QueryState): seq<ChunkRef> { s.retrievedChunks.GetOr([]) }

  function ScoresOf(s: QueryState): seq<real> { s.retrievalScores.GetOr([]) }

  function TopKOf(s: QueryState): int { s.topK.GetOr(0) }

  /** `{**state, "retrieval_valid": False, "retrieval_failure_reason": reason}`. */
  function Reject(s: QueryState, reason: FailureReason): (r: QueryState)
    ensures r.retrievalValid == Some(false) && r.retrievalFailureReason == Some(Some(reason))
    ensures r.(retrievalValid := s.retrievalValid, retrievalFailureReason := s.retrievalFailureReason) == s
  {
    s.(retrievalValid := Some(false), retrievalFailureReason := Some(Some(reason)))
  }

  /** `{**state, "retrieval_valid": True, "retrieval_failure_reason": None}`. */
  function Admit(s: QueryState): (r: QueryState)
    ensures r.retrievalValid == Some(true) && r.retrievalFailureReason == Some(None)
    ensures r.(retrievalValid := s.retrievalValid, retrievalFailureReason := s.retrievalFailureReason) == s
  {
    s.(retrievalValid := Some(true), retrievalFailureReason := Some(None))
  }

  /** `[chunk_loader.get(c["chunk_id"]) for c in refs]`, stopping at the first
      chunk the store does not have. */
  function LoadAll(refs: seq<ChunkRef>, fetch: string -> Option<Chunk>): (r: Result<seq<Chunk>>)
    ensures r.Ok? <==> forall i :: 0 <= i < |refs| ==> fetch(refs[i].chunkId).Some?
    ensures r.Err? ==> r.fault.ChunkNotFound?
    ensures r.Ok? ==> |r.value| == |refs|
                      && forall i :: 0 <= i < |refs| ==> r.value[i] == fetch(refs[i].chunkId).value
  {
    if |refs| == 0 then Ok([])
    else
      var c :- FetchChunk(fetch, refs[0].chunkId);
      var rest :- LoadAll(refs[1..], fetch);
      assert forall i :: 1 <= i < |refs| ==> refs[i] == refs[1..][i - 1];
      Ok([c] + rest)
  }

  /** The chunks text is loaded for. */
  function Validated(s: QueryState): (r: seq<ChunkRef>)
    ensures |r| == Min(TopNValidate, |ChunkRefs(s)|)
    ensures r == ChunkRefs(s)[..|r|]
  {
    PyTake(ChunkRefs(s), TopNValidate)
  }

  /** The four score checks, in order, each of which needs no chunk text. */
  function ScoreGates(s: QueryState): (r: Option<FailureReason>)
    requires |ChunkRefs(s)| > 0 && |ScoresOf(s)| > 0
  {
    if Average(ScoresOf(s)) < MinAvgScore then Some(WeakRetrieval)
    else if EstimateRecall(|ChunkRefs(s)|, TopKOf(s)) < MinRecall then Some(LowRecall)
    else if RelevantRatio(ScoresOf(s)) < MinRelevantRatio then Some(PartialRelevance)
    else None
  }

  /** `retrieval_validation_node(state, chunk_loader)` as it is meant to run,
      with `estimate_recall` called on the chunks and `k`. */
  function ValidateNode(s: QueryState, fetch: string -> Option<Chunk>): (r: Result<QueryState>)
    ensures s.userQuery.None? ==> r == Err(KeyError("user_query"))
    ensures s.userQuery.Some? && |ChunkRefs(s)| == 0 ==> r == Ok(Reject(s, EmptyContext))
    ensures s.userQuery.Some? && |ChunkRefs(s)| > 0 && |ScoresOf(s)| == 0 ==> r == Err(ZeroDivisionError)
    ensures r.Err? ==> r.fault.KeyError? || r.fault.ZeroDivisionError? || r.fault.ChunkNotFound?
    ensures r.Ok? ==>
              && r.value.retrievalFailureReason.Some? && r.value.retrievalValid.Some?
              && (r.value.retrievalValid.value <==> r.value.retrievalFailureReason.value.None?)
              && r.value.(retrievalValid := s.retrievalValid, retrievalFailureReason := s.retrievalFailureReason) == s
  {
    var _ :- UserQuery(s);
    var refs := ChunkRefs(s);
    var scores := ScoresOf(s);
    if |refs| == 0 then Ok(Reject(s, EmptyContext))
    else if |scores| == 0 then Err(ZeroDivisionError)
    else
      match ScoreGates(s)
      case Some(reason) => Ok(Reject(s, reason))
      case None =>
        var loaded :- LoadAll(Validated(s), fetch);
        if !ContextSufficient(loaded) then Ok(Reject(s, InsufficientContext))
        else if HasConflicts(loaded) then Ok(Reject(s, ConflictingSources))
        else Ok(Admit(s))
  }

  // ---------------------------------------------------------------------------
  // The gate order as a reference
  // ---------------------------------------------------------------------------

  /** The gates, in the order the node applies them. */
  const GateOrder: seq<FailureReason> :=
    [EmptyContext, WeakRetrieval, LowRecall, PartialRelevance, InsufficientContext, ConflictingSources]

  /** Whether one gate rejects, judged on its own. */
  predicate Fails(g: FailureReason, refs: seq<ChunkRef>, scores: seq<real>, k: int, loaded: seq<Chunk>)
    requires |scores| > 0
  {
    match g
    case EmptyContext => |refs| == 0
    case WeakRetrieval => Average(scores) < MinAvgScore
    case LowRecall => EstimateRecall(|refs|, k) < MinRecall
    case PartialRelevance => RelevantRatio(scores) < MinRelevantRatio
    case InsufficientContext => !ContextSufficient(loaded)
    case ConflictingSources => HasConflicts(loaded)
  }

  /** The first gate of `gates` that rejects. */
  function FirstFailure(gates: seq<FailureReason>, refs: seq<ChunkRef>, scores: seq<real>, k: int,
                        loaded: seq<Chunk>): (r: Option<FailureReason>)
    requires |scores| > 0
    ensures r.Some? ==> r.value in gates && Fails(r.value, refs, scores, k, loaded)
    ensures r.None? <==> forall i :: 0 <= i < |gates| ==> !Fails(gates[i], refs, scores, k, loaded)
  {
    if |gates| == 0 then None
    else if Fails(gates[0], refs, scores, k, loaded) then Some(gates[0])
    else
      var rest := FirstFailure(gates[1..], refs, scores, k, loaded);
      assert forall i :: 1 <= i < |gates| ==> gates[i] == gates[1..][i - 1];
      rest
  }

  /** The reference, unrolled over the six gates. */
  lemma FirstFailureInOrder(refs: seq<ChunkRef>, scores: seq<real>, k: int, loaded: seq<Chunk>)
    requires |scores| > 0
    ensures FirstFailure(GateOrder, refs, scores, k, loaded)
         == if |refs| == 0 then Some(EmptyContext)
            else if Average(scores) < MinAvgScore then Some(WeakRetrieval)
            else if EstimateRecall(|refs|, k) < MinRecall then Some(LowRecall)
            else if RelevantRatio(scores) < MinRelevantRatio then Some(PartialRelevance)
            else if !ContextSufficient(loaded) then Some(InsufficientContext)
            else if HasConflicts(loaded) then Some(ConflictingSources)
            else None
  {
    var tail := [ConflictingSources];
    assert GateOrder == [EmptyContext] + ([WeakRetrieval] + ([LowRecall] + ([PartialRelevance]
                        + ([InsufficientContext] + tail))));
    FirstFailureCons(EmptyContext, GateOrder[1..], refs, scores, k, loaded);
    FirstFailureCons(WeakRetrieval, GateOrder[2..], refs, scores, k, loaded);
    FirstFailureCons(LowRecall, GateOrder[3..], refs, scores, k, loaded);
    FirstFailureCons(PartialRelevance, GateOrder[4..], refs, scores, k, loaded);
    FirstFailureCons(InsufficientContext, GateOrder[5..], refs, scores, k, loaded);
    FirstFailureCons(ConflictingSources, [], refs, scores, k, loaded);
  }

  /** With scores present and every top chunk in the store, the node reports
      exactly the first failing gate, and admits exactly when no gate fails. */
  lemma ValidateIsFirstFailure(s: QueryState, fetch: string -> Option<Chunk>)
    requires s.userQuery.Some? && |ScoresOf(s)| > 0
    requires forall i :: 0 <= i < |Validated(s)| ==> fetch(Validated(s)[i].chunkId).Some?
    ensures var r := ValidateNode(s, fetch);
      var loaded := LoadAll(Validated(s), fetch).value;
      && r.Ok?
      && r.value.retrievalFailureReason
           == Some(FirstFailure(GateOrder, ChunkRefs(s), ScoresOf(s), TopKOf(s), loaded))
  {
    FirstFailureInOrder(ChunkRefs(s), ScoresOf(s), TopKOf(s), LoadAll(Validated(s), fetch).value);
  }

  lemma FirstFailureCons(g: FailureReason, gs: seq<FailureReason>, refs: seq<ChunkRef>, scores: seq<real>,
                         k: int, loaded: seq<Chunk>)
    requires |scores| > 0
    ensures FirstFailure([g] + gs, refs, scores, k, loaded)
         == if Fails(g, refs, scores, k, loaded) then Some(g) else FirstFailure(gs, refs, scores, k, loaded)
  {
    assert ([g] + gs)[1..] == gs;
  }

  /** A failing score gate is decided before any chunk text is loaded: the
      chunk store is never consulted. */
  lemma ScoreGatesNeedNoFetch(s: QueryState, fetch1: string -> Option<Chunk>, fetch2: string -> Option<Chunk>)
    requires |ChunkRefs(s)| == 0 || |ScoresOf(s)| == 0 || ScoreGates(s).Some?
    ensures ValidateNode(s, fetch1) == ValidateNode(s, fetch2)
  {
  }

  /** Only the top three chunk ids are ever looked up. */
  lemma OnlyTopThreeFetched(s: QueryState, fetch1: string -> Option<Chunk>, fetch2: string -> Option<Chunk>)
    requires forall i :: 0 <= i < |ChunkRefs(s)| && i < TopNValidate ==>
               fetch1(ChunkRefs(s)[i].chunkId) == fetch2(ChunkRefs(s)[i].chunkId)
    ensures ValidateNode(s, fetch1) == ValidateNode(s, fetch2)
  {
    var refs := Validated(s);
    LoadAllAgree(refs, fetch1, fetch2);
  }

  lemma {:induction false} LoadAllAgree(refs: seq<ChunkRef>, fetch1: string -> Option<Chunk>, fetch2: string -> Option<Chunk>)
    requires forall i :: 0 <= i < |refs| ==> fetch1(refs[i].chunkId) == fetch2(refs[i].chunkId)
    ensures LoadAll(refs, fetch1) == LoadAll(refs, fetch2)
  {
    if |refs| > 0 {
      assert forall i :: 1 <= i < |refs| ==> refs[i] == refs[1..][i - 1];
      LoadAllAgree(refs[1..], fetch1, fetch2);
    }
  }

  // ---------------------------------------------------------------------------
  // The node as written
  // ---------------------------------------------------------------------------

  /** The recall gate as written calls `estimate_recall(query, chunks_meta, k)`:
      three arguments to a two-parameter function, which raises `TypeError`. */
  function ValidateNodeAsWritten(s: QueryState, fetch: string -> Option<Chunk>): (r: Result<QueryState>)
    ensures s.userQuery.None? ==> r == Err(KeyError("user_query"))
  {
    var _ :- UserQuery(s);
    var refs := ChunkRefs(s);
    var scores := ScoresOf(s);
    if |refs| == 0 then Ok(Reject(s, EmptyContext))
    else if |scores| == 0 then Err(ZeroDivisionError)
    else if Average(scores) < MinAvgScore then Ok(Reject(s, WeakRetrieval))
    else Err(TypeError("estimate_recall() takes 2 positional arguments but 3 were given"))
  }

  /** As written, no state is ever admitted: every state that passes the
      average-score gate raises instead, where the intended node goes on. */
  lemma AsWrittenNeverAdmits(s: QueryState, fetch: string -> Option<Chunk>)
    ensures var r := ValidateNodeAsWritten(s, fetch);
      r.Ok? ==> r.value.retrievalValid == Some(false)
    ensures s.userQuery.Some? && |ChunkRefs(s)| > 0 && |ScoresOf(s)| > 0 && Average(ScoresOf(s)) >= MinAvgScore ==>
              ValidateNodeAsWritten(s, fetch).Err? && ValidateNode(s, fetch) != ValidateNodeAsWritten(s, fetch)
  {
  }

  /** A concrete state on which the two differ: one strong chunk with plenty of
      recall is admitted by the intended node's score gates but crashes as written. */
  lemma AsWrittenCounterexample(fetch: string -> Option<Chunk>)
    ensures var s := Start("q").(retrievedChunks := Some([ChunkRef("c", "hybrid")]),
                                 retrievalScores := Some([0.9]), topK := Some(1));
      && ValidateNodeAsWritten(s, fetch).Err?
      && ScoreGates(s).None?
  {
    var s := Start("q").(retrievedChunks := Some([ChunkRef("c", "hybrid")]),
                         retrievalScores := Some([0.9]), topK := Some(1));
    assert Sum([0.9]) == 0.9;
    assert StrongCount([0.9]) == 1;
  }
}
