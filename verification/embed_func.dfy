/** ingestion/embed_func.py: the validation gate of `embed_table`. The text
    embedder itself (`embed_text`, a BGE model) is the parameter `embedText`;
    only whether it is called, and on what, is modelled. */
module EmbedFunc {
  import opened Base
  import opened Chars

  /** The two fixed lines put in front of every embedded table. */
  const TableHeader: string := "TABLE DATA\nThe following is structured tabular information:\n"

  /** The non-blank lines, each stripped, in order. */
  function StrippedLines(ls: seq<string>): (r: seq<string>)
    ensures |r| <= |ls|
    ensures forall i :: 0 <= i < |r| ==> |r[i]| > 0
  {
    if |ls| == 0 then []
    else (if Strip(ls[0]) != "" then [Strip(ls[0])] else []) + StrippedLines(ls[1..])
  }

  /** `"\n".join(line.strip() for line in table_text.splitlines() if line.strip())`. */
  function CleanTableText(table: string): string {
    Join("\n", StrippedLines(SplitLines(table)))
  }

  /** Some line contains `|`, a tab or a space. */
  predicate HasDelimiter(lines: seq<string>) {
    exists i, k :: 0 <= i < |lines| && 0 <= k < |lines[i]| && IsDelimiter(lines[i][k])
  }

  predicate IsDelimiter(c: char) { c == '|' || c == '\t' || c == ' ' }

  /** `("|" in line or "\t" in line or " " in line)` for one line. */
  predicate LineHasDelimiter(line: string) {
    Contains(line, "|") || Contains(line, "\t") || Contains(line, " ")
  }

  /** The `any(...)` over the lines, as the source computes it. */
  function AnyLineHasDelimiter(lines: seq<string>): (r: bool)
    ensures r <==> HasDelimiter(lines)
  {
    if |lines| == 0 then false
    else
      LineDelimiterIff(lines[0]);
      LineHasDelimiter(lines[0]) || AnyLineHasDelimiter(lines[1..])
  }

  lemma LineDelimiterIff(line: string)
    ensures LineHasDelimiter(line) <==> exists k :: 0 <= k < |line| && IsDelimiter(line[k])
  {
    ContainsIffSlice(line, "|");
    ContainsIffSlice(line, "\t");
    ContainsIffSlice(line, " ");
    if exists k :: 0 <= k < |line| && IsDelimiter(line[k]) {
      var k :| 0 <= k < |line| && IsDelimiter(line[k]);
      assert Window(line, k, 1) == [line[k]];
      assert IsSlice([line[k]], line);
    }
    if LineHasDelimiter(line) {
      var d := if Contains(line, "|") then "|" else if Contains(line, "\t") then "\t" else " ";
      assert IsSlice(d, line);
      var i: nat :| i + 1 <= |line| && Window(line, i, 1) == d;
      assert line[i] == d[0];
    }
  }

  /** `sum(c.isalpha() for c in s)`. */
  function AlphaCount(s: string): (n: nat)
    ensures n <= |s|
  {
    if |s| == 0 then 0 else (if IsAlpha(s[0]) then 1 else 0) + AlphaCount(s[1..])
  }

  /** `sum(...) / max(len(s), 1) < 0.15`, cross-multiplied: n / d < 3 / 20 exactly
      when 20 n < 3 d for a positive d. */
  predicate LowAlphaRatio(s: string) {
    20 * AlphaCount(s) < 3 * Max(|s|, 1)
  }

  /** `embed_table(table_text)`: `None` for a rejected table, otherwise the
      embedding of the header followed by the cleaned text. */
  function EmbedTable(table: string, embedText: string -> seq<real>): (r: Option<seq<real>>)
    ensures table == "" ==> r.None?
    ensures r.Some? <==>
              && table != ""
              && |SplitLines(CleanTableText(table))| >= 2
              && HasDelimiter(SplitLines(CleanTableText(table)))
              && !LowAlphaRatio(CleanTableText(table))
    ensures r.Some? ==> r.value == embedText(TableHeader + CleanTableText(table))
  {
    if table == "" then None
    else
      var cleaned := CleanTableText(table);
      var lines := SplitLines(cleaned);
      if |lines| < 2 then None
      else if !AnyLineHasDelimiter(lines) then None
      else if LowAlphaRatio(cleaned) then None
      else Some(embedText(TableHeader + cleaned))
  }

  /** Every character of every line lies in `cs`. */
  ghost predicate AllIn(ls: seq<string>, cs: iset<char>) {
    forall i, k :: 0 <= i < |ls| && 0 <= k < |ls[i]| ==> ls[i][k] in cs
  }

  lemma {:induction false} SplitLinesIn(s: string, cs: iset<char>)
    requires forall k :: 0 <= k < |s| ==> s[k] in cs
    ensures AllIn(SplitLines(s), cs)
    decreases |s|
  {
    if |s| > 0 {
      var n := LineLen(s);
      if n < |s| {
        var skip := if s[n] == '\r' && n + 1 < |s| && s[n + 1] == '\n' then 2 else 1;
        var rest := s[n + skip..];
        assert forall k :: 0 <= k < |rest| ==> rest[k] == s[n + skip + k];
        SplitLinesIn(rest, cs);
        assert SplitLines(s) == [s[..n]] + SplitLines(rest);
        AllInAppend([s[..n]], SplitLines(rest), cs);
      }
    }
  }

  lemma AllInAppend(a: seq<string>, b: seq<string>, cs: iset<char>)
    requires AllIn(a, cs) && AllIn(b, cs)
    ensures AllIn(a + b, cs)
  {
    forall i, k | 0 <= i < |a + b| && 0 <= k < |(a + b)[i]| ensures (a + b)[i][k] in cs {
      if i >= |a| { assert (a + b)[i] == b[i - |a|]; }
    }
  }

  lemma StripIn(line: string, cs: iset<char>)
    requires forall k :: 0 <= k < |line| ==> line[k] in cs
    ensures forall k :: 0 <= k < |Strip(line)| ==> Strip(line)[k] in cs
  {
    StripShape(line);
    var a := StripStart(line);
    assert forall k :: 0 <= k < |Strip(line)| ==> Strip(line)[k] == line[a + k];
  }

  lemma {:induction false} StrippedLinesIn(ls: seq<string>, cs: iset<char>)
    requires AllIn(ls, cs)
    ensures AllIn(StrippedLines(ls), cs)
    decreases |ls|
  {
    if |ls| > 0 {
      StripIn(ls[0], cs);
      var head := if Strip(ls[0]) != "" then [Strip(ls[0])] else [];
      assert AllIn(ls[1..], cs) by {
        assert forall i :: 0 <= i < |ls| - 1 ==> ls[1..][i] == ls[i + 1];
      }
      StrippedLinesIn(ls[1..], cs);
      AllInAppend(head, StrippedLines(ls[1..]), cs);
    }
  }

  lemma {:induction false} JoinIn(ls: seq<string>, cs: iset<char>)
    requires AllIn(ls, cs) && '\n' in cs
    ensures forall k :: 0 <= k < |Join("\n", ls)| ==> Join("\n", ls)[k] in cs
    decreases |ls|
  {
    if |ls| > 1 {
      JoinIn(ls[1..], cs);
      var rest := Join("\n", ls[1..]);
      var j := Join("\n", ls);
      assert j == ls[0] + "\n" + rest;
      forall k | 0 <= k < |j| ensures j[k] in cs {
        if k < |ls[0]| {
          assert j[k] == ls[0][k];
        } else if k > |ls[0]| {
          assert j[k] == rest[k - |ls[0]| - 1];
        }
      }
    } else if |ls| == 1 {
      assert Join("\n", ls) == ls[0];
    }
  }

  /** The gate's line count is the number of non-blank input lines: the cleaned
      text's lines are exactly the input's non-blank lines, stripped. */
  lemma TableLines(table: string)
    ensures SplitLines(CleanTableText(table)) == StrippedLines(SplitLines(table))
  {
    var ls := StrippedLines(SplitLines(table));
    var noBreak := iset c: char | !IsLineBreak(c);
    StrippedLinesIn(SplitLines(table), noBreak);
    SplitLinesJoin(ls);
  }

  /** A table needs at least two non-blank lines. */
  lemma EmbedTableNeedsTwoRows(table: string, embedText: string -> seq<real>)
    ensures EmbedTable(table, embedText).Some? ==> |StrippedLines(SplitLines(table))| >= 2
  {
    TableLines(table);
  }

  /** A table with no letter at all is numeric garbage and is rejected. */
  lemma NumericTableRejected(table: string, embedText: string -> seq<real>)
    requires forall k :: 0 <= k < |table| ==> !IsAlpha(table[k])
    ensures EmbedTable(table, embedText).None?
  {
    var noAlpha := iset c: char | !IsAlpha(c);
    SplitLinesIn(table, noAlpha);
    StrippedLinesIn(SplitLines(table), noAlpha);
    JoinIn(StrippedLines(SplitLines(table)), noAlpha);
    AlphaCountZero(CleanTableText(table));
  }

  lemma {:induction false} AlphaCountZero(s: string)
    requires forall k :: 0 <= k < |s| ==> !IsAlpha(s[k])
    ensures AlphaCount(s) == 0
    decreases |s|
  {
    if |s| > 0 {
      AlphaCountZero(s[1..]);
    }
  }

  /** Whether a table is accepted does not depend on the embedder, which is
      called only once every gate has passed. */
  lemma GateIgnoresEmbedder(table: string, e1: string -> seq<real>, e2: string -> seq<real>)
    ensures EmbedTable(table, e1).None? <==> EmbedTable(table, e2).None?
  {
  }
}
