/** utils/json.py and the JSON values the query-understanding nodes inspect.
    The decoder itself (`json.loads`) is a parameter `loads`, `None` when it
    rejects its input. */
module JsonUtil {
  import opened Base

  /** A decoded JSON value; `JNull` is Python's `None`. */
  datatype Json =
    | JNull
    | JBool(b: bool)
    | JNum(n: real)
    | JStr(s: string)
    | JArr(items: seq<Json>)
    | JObj(fields: map<string, Json>)

  /** `value.get(key, default)`: only a dict has `.get`. */
  function Get(j: Json, key: string, default: Json): (r: Result<Json>)
    ensures j.JObj? <==> r.Ok?
    ensures j.JObj? && key in j.fields ==> r == Ok(j.fields[key])
    ensures j.JObj? && key !in j.fields ==> r == Ok(default)
  {
    match j
    case JObj(fields) => Ok(Lookup(fields, key, default))
    case _ => Err(AttributeError("get"))
  }

  /** `d.get(key, default)` on a dict's entries. */
  function Lookup(fields: map<string, Json>, key: string, default: Json): Json {
    if key in fields then fields[key] else default
  }

  /** `value[key]` with a string key: a dict without the key raises `KeyError`,
      anything else that is not a dict raises `TypeError`. */
  function Index(j: Json, key: string): (r: Result<Json>)
    ensures r.Ok? <==> j.JObj? && key in j.fields
    ensures r.Ok? ==> r.value == j.fields[key]
    ensures j.JObj? && key !in j.fields ==> r == Err(KeyError(key))
  {
    match j
    case JObj(fields) => if key in fields then Ok(fields[key]) else Err(KeyError(key))
    case _ => Err(TypeError("subscript"))
  }

  /** The first position of `c` in `s`. */
  function FirstIndex(s: string, c: char): (r: Option<nat>)
    ensures r.Some? ==> r.value < |s| && s[r.value] == c && forall k :: 0 <= k < r.value ==> s[k] != c
    ensures r.None? ==> forall k :: 0 <= k < |s| ==> s[k] != c
  {
    if |s| == 0 then None
    else if s[0] == c then Some(0)
    else
      match FirstIndex(s[1..], c)
      case Some(i) => Some(i + 1)
      case None => None
  }

  /** The last position of `c` in `s`. */
  function LastIndex(s: string, c: char): (r: Option<nat>)
    ensures r.Some? ==> r.value < |s| && s[r.value] == c && forall k :: r.value < k < |s| ==> s[k] != c
    ensures r.None? ==> forall k :: 0 <= k < |s| ==> s[k] != c
  {
    if |s| == 0 then None
    else if s[|s| - 1] == c then Some(|s| - 1)
    else LastIndex(s[..|s| - 1], c)
  }

  /** What the dot-all, greedy pattern `\{.*\}` matches: from the first `{` to the
      last `}`, provided that `}` lies after the `{`. */
  function Span(text: string): (r: Option<string>)
    ensures r.Some? ==> |r.value| >= 2 && r.value[0] == '{' && r.value[|r.value| - 1] == '}'
  {
    var first := FirstIndex(text, '{');
    var last := LastIndex(text, '}');
    if first.Some? && last.Some? && first.value < last.value then
      Some(text[first.value..last.value + 1])
    else None
  }

  /** There is a match exactly when some `{` precedes some `}`; it then starts at
      the first `{`, ends at the last `}` and takes everything between, newlines
      included. */
  lemma SpanCharacterized(text: string)
    ensures Span(text).Some? <==>
              exists i, j :: 0 <= i < j < |text| && text[i] == '{' && text[j] == '}'
    ensures Span(text).Some? ==>
              && FirstIndex(text, '{').Some? && LastIndex(text, '}').Some?
              && FirstIndex(text, '{').value < LastIndex(text, '}').value
              && Span(text).value == text[FirstIndex(text, '{').value..LastIndex(text, '}').value + 1]
  {
    var first := FirstIndex(text, '{');
    var last := LastIndex(text, '}');
    forall i, j | 0 <= i < j < |text| && text[i] == '{' && text[j] == '}'
      ensures Span(text).Some?
    {
      assert first.Some? && first.value <= i;
      assert last.Some? && last.value >= j;
    }
    if Span(text).Some? {
      assert text[first.value] == '{' && text[last.value] == '}';
    }
  }

  /** `extract_json(text)`. */
  function ExtractJson(text: string, loads: string -> Option<Json>): (r: Result<Json>)
    ensures Span(text).None? ==> r == Err(NoJsonObject)
    ensures Span(text).Some? && loads(Span(text).value).None? ==> r == Err(JsonDecodeError)
    ensures r.Ok? <==> Span(text).Some? && loads(Span(text).value).Some?
    ensures r.Ok? ==> r.value == loads(Span(text).value).value
  {
    match Span(text)
    case None => Err(NoJsonObject)
    case Some(span) =>
      match loads(span)
      case None => Err(JsonDecodeError)
      case Some(j) => Ok(j)
  }

  lemma FirstIndexAt(s: string, c: char, i: nat)
    requires i < |s| && s[i] == c && forall k :: 0 <= k < i ==> s[k] != c
    ensures FirstIndex(s, c) == Some(i)
  {
  }

  lemma LastIndexAt(s: string, c: char, j: nat)
    requires j < |s| && s[j] == c && forall k :: j < k < |s| ==> s[k] != c
    ensures LastIndex(s, c) == Some(j)
  {
  }

  /** The match is the slice between the first `{` and the last `}`. */
  lemma SpanAt(s: string, i: nat, j: nat)
    requires i < j < |s| && s[i] == '{' && s[j] == '}'
    requires forall k :: 0 <= k < i ==> s[k] != '{'
    requires forall k :: j < k < |s| ==> s[k] != '}'
    ensures Span(s) == Some(s[i..j + 1])
  {
    FirstIndexAt(s, '{', i);
    LastIndexAt(s, '}', j);
  }

  /** Text around a single JSON object does not change what is decoded. */
  lemma ExtractIgnoresSurroundings(pre: string, body: string, post: string, loads: string -> Option<Json>)
    requires forall k :: 0 <= k < |pre| ==> pre[k] != '{'
    requires forall k :: 0 <= k < |post| ==> post[k] != '}'
    ensures ExtractJson(pre + "{" + body + "}" + post, loads) == ExtractJson("{" + body + "}", loads)
  {
    var u := "{" + body + "}";
    var t := pre + u + post;
    assert t == pre + "{" + body + "}" + post;
    var i := |pre|;
    var j := |pre| + |u| - 1;
    assert t[i] == '{' && t[j] == '}';
    forall k | 0 <= k < i ensures t[k] != '{' { assert t[k] == pre[k]; }
    forall k | j < k < |t| ensures t[k] != '}' { assert t[k] == post[k - j - 1]; }
    SpanAt(t, i, j);
    assert t[i..j + 1] == u;
    SpanAt(u, 0, |u| - 1);
    assert u[0..|u|] == u;
  }
}
