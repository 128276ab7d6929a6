/** agents/answer.py: evidence packing and the answer verdict. Retrieved chunks
    are loaded in rank order and packed greedily under a character budget; the
    language model (a parameter `llm`) answers from the packed context only, and
    a reply mentioning `INSUFFICIENT_EVIDENCE` anywhere is not an answer. */
module Answer {
  import opened Base
  import opened Chars
  import opened AgentState

  /** `MAX_CONTEXT_CHARS`. */
  const MaxContextChars: nat := 4000

  const InsufficientMarker: string := "INSUFFICIENT_EVIDENCE"

  /** The characters of chunk text packed so far. */
  function TextLen(cs: seq<Chunk>): nat {
    if |cs| == 0 then 0 else |cs[0].text| + TextLen(cs[1..])
  }

  /** The chunks whose text is not empty, in order. */
  function NonEmpty(cs: seq<Chunk>): (r: seq<Chunk>)
    ensures forall c :: c in r <==> c in cs && |c.text| > 0
  {
    if |cs| == 0 then []
    else (if |cs[0].text| > 0 then [cs[0]] else []) + NonEmpty(cs[1..])
  }

  /** The rows the store returns for `refs`, all of which it has. */
  function Fetched(refs: seq<ChunkRef>, fetch: string -> Option<Chunk>): (r: seq<Chunk>)
    requires forall i :: 0 <= i < |refs| ==> fetch(refs[i].chunkId).Some?
    ensures |r| == |refs|
    ensures forall i :: 0 <= i < |refs| ==> r[i] == fetch(refs[i].chunkId).value
  {
    seq(|refs|, i requires 0 <= i < |refs| => fetch(refs[i].chunkId).value)
  }

  /** The packing loop's outcome: the chunks packed, and how many retrieved
      entries it went through before finishing or breaking. */
  datatype Packed = Packed(used: seq<Chunk>, consumed: nat)

  /** The packing loop, from a running total `total`: empty texts are skipped,
      and the first text that would push the total past the budget ends the loop. */
  function Pack(items: seq<ChunkRef>, fetch: string -> Option<Chunk>, total: nat): (r: Result<Packed>)
    requires total <= MaxContextChars
    ensures r.Ok? ==>
              && r.value.consumed <= |items|
              && total + TextLen(r.value.used) <= MaxContextChars
    decreases |items|
  {
    if |items| == 0 then Ok(Packed([], 0))
    else
      var c :- FetchChunk(fetch, items[0].chunkId);
      if |c.text| == 0 then
        var rest :- Pack(items[1..], fetch, total);
        assert forall i :: 1 <= i < |items| ==> items[i] == items[1..][i - 1];
        Ok(Packed(rest.used, rest.consumed + 1))
      else if total + |c.text| > MaxContextChars then Ok(Packed([], 0))
      else
        var rest :- Pack(items[1..], fetch, total + |c.text|);
        assert forall i :: 1 <= i < |items| ==> items[i] == items[1..][i - 1];
        Ok(Packed([c] + rest.used, rest.consumed + 1))
  }

  /** Packing fails only at an entry the store has no row for, reporting that
      entry's id. */
  lemma {:induction false} PackFault(items: seq<ChunkRef>, fetch: string -> Option<Chunk>, total: nat)
    requires total <= MaxContextChars
    requires Pack(items, fetch, total).Err?
    ensures exists i :: 0 <= i < |items| && fetch(items[i].chunkId).None?
                        && Pack(items, fetch, total).fault == ChunkNotFound(items[i].chunkId)
    decreases |items|
  {
    var c := fetch(items[0].chunkId);
    if c.Some? {
      var t := if |c.value.text| == 0 then total else total + |c.value.text|;
      PackFault(items[1..], fetch, t);
      var j :| 0 <= j < |items[1..]| && fetch(items[1..][j].chunkId).None?
               && Pack(items[1..], fetch, t).fault == ChunkNotFound(items[1..][j].chunkId);
      assert items[1..][j] == items[j + 1];
    }
  }

  /** One step of the loop, when it does not break at the first entry. */
  lemma PackStep(items: seq<ChunkRef>, fetch: string -> Option<Chunk>, total: nat)
    requires total <= MaxContextChars && |items| > 0
    requires Pack(items, fetch, total).Ok?
    ensures fetch(items[0].chunkId).Some?
    ensures var c := fetch(items[0].chunkId).value;
      var t := if |c.text| == 0 then total else total + |c.text|;
      var r := Pack(items, fetch, total).value;
      (|c.text| == 0 || total + |c.text| <= MaxContextChars) ==>
        && t <= MaxContextChars
        && Pack(items[1..], fetch, t).Ok?
        && r.consumed == Pack(items[1..], fetch, t).value.consumed + 1
        && r.used == (if |c.text| == 0 then [] else [c]) + Pack(items[1..], fetch, t).value.used
    ensures var c := fetch(items[0].chunkId).value;
      |c.text| > 0 && total + |c.text| > MaxContextChars ==> Pack(items, fetch, total) == Ok(Packed([], 0))
  {
  }

  /** One step of the loop taken from its first entry and the rest's outcome. */
  lemma PackCons(items: seq<ChunkRef>, fetch: string -> Option<Chunk>, total: nat)
    requires total <= MaxContextChars && |items| > 0 && fetch(items[0].chunkId).Some?
    ensures var c := fetch(items[0].chunkId).value;
      var t := if |c.text| == 0 then total else total + |c.text|;
      (|c.text| == 0 || total + |c.text| <= MaxContextChars) && Pack(items[1..], fetch, t).Ok? ==>
        var rest := Pack(items[1..], fetch, t).value;
        Pack(items, fetch, total) == Ok(Packed((if |c.text| == 0 then [] else [c]) + rest.used, rest.consumed + 1))
  {
    var c := fetch(items[0].chunkId).value;
    assert FetchChunk(fetch, items[0].chunkId) == Ok(c);
    if |c.text| == 0 && Pack(items[1..], fetch, total).Ok? {
      var rest := Pack(items[1..], fetch, total).value;
      assert [] + rest.used == rest.used;
    }
  }

  /** The rows of a prefix one longer. */
  lemma FetchedCons(items: seq<ChunkRef>, fetch: string -> Option<Chunk>, n: nat)
    requires 0 < n <= |items|
    requires forall i :: 0 <= i < n ==> fetch(items[i].chunkId).Some?
    ensures forall i :: 0 <= i < n - 1 ==> fetch(items[1..][i].chunkId).Some?
    ensures Fetched(items[..n], fetch)
         == [fetch(items[0].chunkId).value] + Fetched(items[1..][..n - 1], fetch)
  {
    assert forall i :: 0 <= i < n - 1 ==> items[1..][i] == items[i + 1];
  }

  lemma NonEmptyCons(c: Chunk, cs: seq<Chunk>)
    ensures NonEmpty([c] + cs) == (if |c.text| > 0 then [c] else []) + NonEmpty(cs)
  {
    assert ([c] + cs)[1..] == cs;
  }

  /** Packing keeps exactly the non-empty chunks it goes through, in order. */
  lemma {:induction false} PackUsed(items: seq<ChunkRef>, fetch: string -> Option<Chunk>, total: nat)
    requires total <= MaxContextChars
    requires Pack(items, fetch, total).Ok?
    ensures var r := Pack(items, fetch, total).value;
      forall i :: 0 <= i < r.consumed ==> fetch(items[i].chunkId).Some?
    ensures var r := Pack(items, fetch, total).value;
      r.used == NonEmpty(Fetched(items[..r.consumed], fetch))
    decreases |items|
  {
    if |items| > 0 {
      PackStep(items, fetch, total);
      var c := fetch(items[0].chunkId).value;
      var r := Pack(items, fetch, total).value;
      if |c.text| == 0 || total + |c.text| <= MaxContextChars {
        var t := if |c.text| == 0 then total else total + |c.text|;
        var rest := Pack(items[1..], fetch, t).value;
        PackUsed(items[1..], fetch, t);
        FetchedCons(items, fetch, r.consumed);
        var tail := Fetched(items[1..][..rest.consumed], fetch);
        assert rest.used == NonEmpty(tail);
        assert Fetched(items[..r.consumed], fetch) == [c] + tail;
        NonEmptyCons(c, tail);
      } else {
        assert r == Packed([], 0);
        assert Fetched(items[..0], fetch) == [];
      }
    } else {
      assert Fetched(items[..0], fetch) == [];
    }
  }

  /** Packing stops early only at a non-empty text that would overflow the budget. */
  lemma {:induction false} PackStopsAtOverflow(items: seq<ChunkRef>, fetch: string -> Option<Chunk>, total: nat)
    requires total <= MaxContextChars
    requires Pack(items, fetch, total).Ok?
    ensures var r := Pack(items, fetch, total).value;
      r.consumed < |items| ==>
        && fetch(items[r.consumed].chunkId).Some?
        && var next := fetch(items[r.consumed].chunkId).value;
           |next.text| > 0 && total + TextLen(r.used) + |next.text| > MaxContextChars
    decreases |items|
  {
    if |items| > 0 {
      PackStep(items, fetch, total);
      var c := fetch(items[0].chunkId).value;
      var r := Pack(items, fetch, total).value;
      if |c.text| == 0 || total + |c.text| <= MaxContextChars {
        var t := if |c.text| == 0 then total else total + |c.text|;
        PackStopsAtOverflow(items[1..], fetch, t);
        var rest := Pack(items[1..], fetch, t).value;
        if r.consumed < |items| {
          assert items[r.consumed] == items[1..][rest.consumed];
          assert TextLen(r.used) == (if |c.text| == 0 then 0 else |c.text|) + TextLen(rest.used) by {
            if |c.text| > 0 { assert ([c] + rest.used)[1..] == rest.used; }
          }
        }
      }
    }
  }

  /** Entries after the point where packing stopped are never looked up: the
      store's answer for them does not matter. */
  lemma {:induction false} PackIgnoresRest(items: seq<ChunkRef>, fetch1: string -> Option<Chunk>,
                                           fetch2: string -> Option<Chunk>, total: nat)
    requires total <= MaxContextChars
    requires Pack(items, fetch1, total).Ok?
    requires forall i :: 0 <= i <= Pack(items, fetch1, total).value.consumed && i < |items| ==>
               fetch1(items[i].chunkId) == fetch2(items[i].chunkId)
    ensures Pack(items, fetch2, total) == Pack(items, fetch1, total)
    decreases |items|
  {
    if |items| > 0 {
      PackStep(items, fetch1, total);
      assert FetchChunk(fetch2, items[0].chunkId) == FetchChunk(fetch1, items[0].chunkId);
      var c := fetch1(items[0].chunkId).value;
      if |c.text| == 0 || total + |c.text| <= MaxContextChars {
        var t := if |c.text| == 0 then total else total + |c.text|;
        var rest := Pack(items[1..], fetch1, t).value;
        forall i | 0 <= i <= rest.consumed && i < |items[1..]|
          ensures fetch1(items[1..][i].chunkId) == fetch2(items[1..][i].chunkId)
        {
          assert items[1..][i] == items[i + 1];
        }
        PackIgnoresRest(items[1..], fetch1, fetch2, t);
        PackCons(items, fetch2, total);
      } else {
        assert Pack(items, fetch2, total) == Ok(Packed([], 0));
      }
    }
  }

  /** The context line of one chunk: `[chunk_id] text`. */
  function Context(c: Chunk): string {
    "[" + c.chunkId + "] " + c.text
  }

  function Contexts(cs: seq<Chunk>): (r: seq<string>)
    ensures |r| == |cs|
    ensures forall i :: 0 <= i < |cs| ==> r[i] == Context(cs[i])
  {
    seq(|cs|, i requires 0 <= i < |cs| => Context(cs[i]))
  }

  function ChunkIds(cs: seq<Chunk>): (r: seq<string>)
    ensures |r| == |cs|
    ensures forall i :: 0 <= i < |cs| ==> r[i] == cs[i].chunkId
  {
    seq(|cs|, i requires 0 <= i < |cs| => cs[i].chunkId)
  }

  /** The state when there is nothing to answer from: no text, no citations. */
  function Unsupported(s: QueryState): (r: QueryState)
    ensures r.answerText == Some(None) && r.answerCitations == Some([]) && r.answerSupported == Some(false)
    ensures r.(answerText := s.answerText, answerCitations := s.answerCitations,
               answerSupported := s.answerSupported) == s
  {
    s.(answerText := Some(None), answerCitations := Some([]), answerSupported := Some(false))
  }

  /** `answer_generation_node(state, chunk_retriever)`, with the model's reply to
      each prompt supplied by `llm`. */
  function AnswerNode(s: QueryState, fetch: string -> Option<Chunk>, llm: Prompt -> string): (r: Result<QueryState>)
    ensures s.retrievedChunks.GetOr([]) == [] ==> r == Ok(Unsupported(Empty))
    ensures r.Ok? ==>
              && r.value.answerSupported.Some? && r.value.answerText.Some? && r.value.answerCitations.Some?
              && (r.value.answerSupported.value <==> r.value.answerText.value.Some?)
              && (!r.value.answerSupported.value ==> r.value.answerCitations == Some([]))
    ensures r.Ok? && s.retrievedChunks.GetOr([]) != [] ==>
              r.value.(answerText := s.answerText, answerCitations := s.answerCitations,
                       answerSupported := s.answerSupported) == s
    ensures r.Ok? && r.value.answerSupported == Some(true) ==>
              s.retrievedChunks.Some? && Pack(s.retrievedChunks.value, fetch, 0).Ok? &&
              var p := Pack(s.retrievedChunks.value, fetch, 0).value;
              var reply := r.value.answerText.value.value;
              && p.used != []
              && s.userQuery.Some?
              && reply == Strip(llm(AnswerPrompt(s.userQuery.value, Join("\n\n", Contexts(p.used)))))
              && !Contains(reply, InsufficientMarker)
              && r.value.answerCitations == Some(ChunkIds(p.used))
              && TextLen(p.used) <= MaxContextChars
    ensures var items := s.retrievedChunks.GetOr([]);
      items != [] ==>
        && (r.Err? <==> Pack(items, fetch, 0).Err? || (Pack(items, fetch, 0).value.used != [] && s.userQuery.None?))
        && (Pack(items, fetch, 0).Err? ==> r == Err(Pack(items, fetch, 0).fault))
        && (Pack(items, fetch, 0).Ok? && r.Err? ==> r.fault == KeyError("user_query"))
    ensures var items := s.retrievedChunks.GetOr([]);
      items != [] && Pack(items, fetch, 0).Ok? && Pack(items, fetch, 0).value.used == [] ==>
        r == Ok(Unsupported(s))
    ensures var items := s.retrievedChunks.GetOr([]);
      items != [] && Pack(items, fetch, 0).Ok? && Pack(items, fetch, 0).value.used != [] && s.userQuery.Some? ==>
        var used := Pack(items, fetch, 0).value.used;
        var reply := Strip(llm(AnswerPrompt(s.userQuery.value, Join("\n\n", Contexts(used)))));
        r == Ok(if Contains(reply, InsufficientMarker) then Unsupported(s)
                else s.(answerText := Some(Some(reply)), answerCitations := Some(ChunkIds(used)),
                        answerSupported := Some(true)))
  {
    var retrieved := s.retrievedChunks.GetOr([]);
    if retrieved == [] then Ok(Unsupported(Empty))
    else
      var p :- Pack(retrieved, fetch, 0);
      if p.used == [] then Ok(Unsupported(s))
      else
        var query :- UserQuery(s);
        var reply := Strip(llm(AnswerPrompt(query, Join("\n\n", Contexts(p.used)))));
        if Contains(reply, InsufficientMarker) then Ok(Unsupported(s))
        else Ok(s.(answerText := Some(Some(reply)), answerCitations := Some(ChunkIds(p.used)),
                   answerSupported := Some(true)))
  }

  /** Skipping empty texts keeps the remaining chunks in order. */
  lemma {:induction false} NonEmptySubsequence(cs: seq<Chunk>)
    ensures IsSubsequence(NonEmpty(cs), cs)
  {
    if |cs| > 0 {
      NonEmptySubsequence(cs[1..]);
      var rest := NonEmpty(cs[1..]);
      NonEmptyCons(cs[0], cs[1..]);
      assert [cs[0]] + cs[1..] == cs;
      if |cs[0].text| > 0 {
        assert ([cs[0]] + rest)[1..] == rest;
      } else {
        assert [] + rest == rest;
        SubsequenceSkip(rest, cs);
      }
    }
  }

  /** A supported answer cites exactly the non-empty chunks of a prefix of the
      retrieved list, in retrieval order; the prefix ends either with the list
      or just before the first chunk that would overflow the budget. */
  lemma AnswerEvidence(s: QueryState, fetch: string -> Option<Chunk>, llm: Prompt -> string)
    requires AnswerNode(s, fetch, llm).Ok? && AnswerNode(s, fetch, llm).value.answerSupported == Some(true)
    ensures s.retrievedChunks.Some? && Pack(s.retrievedChunks.value, fetch, 0).Ok?
    ensures var items := s.retrievedChunks.value;
      var p := Pack(items, fetch, 0).value;
      && p.consumed <= |items|
      && (forall i :: 0 <= i < p.consumed ==> fetch(items[i].chunkId).Some?)
      && p.used == NonEmpty(Fetched(items[..p.consumed], fetch))
      && IsSubsequence(p.used, Fetched(items[..p.consumed], fetch))
      && AnswerNode(s, fetch, llm).value.answerCitations == Some(ChunkIds(p.used))
      && (p.consumed < |items| ==>
            && fetch(items[p.consumed].chunkId).Some?
            && TextLen(p.used) + |fetch(items[p.consumed].chunkId).value.text| > MaxContextChars)
  {
    var items := s.retrievedChunks.value;
    PackUsed(items, fetch, 0);
    PackStopsAtOverflow(items, fetch, 0);
    var p := Pack(items, fetch, 0).value;
    NonEmptySubsequence(Fetched(items[..p.consumed], fetch));
  }

  /** A reply that mentions the marker anywhere, however surrounded, is never
      accepted as an answer. */
  lemma MarkerRejects(s: QueryState, fetch: string -> Option<Chunk>, llm: Prompt -> string, pre: string, post: string)
    requires forall p :: llm(p) == pre + InsufficientMarker + post
    ensures var r := AnswerNode(s, fetch, llm);
      r.Ok? ==> r.value.answerSupported == Some(false) && r.value.answerCitations == Some([])
  {
    var reply := pre + InsufficientMarker + post;
    var stripped := Strip(reply);
    if Contains(stripped, InsufficientMarker) {
    } else {
      StripKeepsMarker(pre, post);
    }
  }

  /** Stripping whitespace cannot cut into the marker, which has none. */
  lemma StripKeepsMarker(pre: string, post: string)
    ensures Contains(Strip(pre + InsufficientMarker + post), InsufficientMarker)
  {
    var s := pre + InsufficientMarker + post;
    var m := InsufficientMarker;
    var st := Strip(s);
    var lead := LeadingSpaces(s);
    var trail := TrimmedEnd(s);
    assert !IsSpace(s[|pre|]) by { assert s[|pre|] == m[0]; }
    assert !IsSpace(s[|pre| + |m| - 1]) by { assert s[|pre| + |m| - 1] == m[|m| - 1]; }
    StripBounds(s, |pre|, |pre| + |m|);
    var i := |pre| - StripStart(s);
    assert Window(st, i, |m|) == m by {
      StripWindow(s, |pre|, |m|);
      assert s[|pre|..|pre| + |m|] == m;
    }
    ContainsIffSlice(st, m);
  }

  lemma StripBounds(s: string, a: nat, b: nat)
    requires a < b <= |s| && !IsSpace(s[a]) && !IsSpace(s[b - 1])
    ensures StripStart(s) <= a && b <= StripStart(s) + |Strip(s)|
  {
    StripShape(s);
  }

  lemma StripWindow(s: string, a: nat, n: nat)
    requires 0 < n && a + n <= |s| && !IsSpace(s[a]) && !IsSpace(s[a + n - 1])
    ensures StripStart(s) <= a && a - StripStart(s) + n <= |Strip(s)|
    ensures Window(Strip(s), a - StripStart(s), n) == s[a..a + n]
  {
    StripShape(s);
    var st := StripStart(s);
    var t := Strip(s);
    assert IsSpace(s[a]) || a >= st;
    assert IsSpace(s[a + n - 1]) || a + n <= st + |t|;
    var w := Window(t, a - st, n);
    forall k | a <= k < a + n ensures w[k - a] == s[k] {
      assert t[k - st] == s[k];
    }
    assert w == s[a..a + n];
  }
}
