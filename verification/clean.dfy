/** ingestion/clean.py: `clean_text`, four regular-expression passes and a strip.
    Each pass is modelled as the left-to-right scan `re.sub` performs. */
module Clean {
  import opened Base
  import opened Chars

  /** The class `[ \t]`. */
  predicate IsBlank(c: char) { c == ' ' || c == '\t' }

  /** The character classes the patterns repeat: `\s`, `\d`, `\n` and `[ \t]`. */
  datatype Class = Space | Digit | Newline | Blank

  predicate In(c: char, k: Class) {
    match k
    case Space => IsSpace(c)
    case Digit => IsDigit(c)
    case Newline => c == '\n'
    case Blank => IsBlank(c)
  }

  /** Length of the longest prefix of `s` drawn from class `k`. */
  function RunLen(s: string, k: Class): (n: nat)
    ensures n <= |s|
    ensures forall i :: 0 <= i < n ==> In(s[i], k)
    ensures n < |s| ==> !In(s[n], k)
  {
    if |s| == 0 || !In(s[0], k) then 0 else 1 + RunLen(s[1..], k)
  }

  /** `s` starts with the lower-case `word`, ignoring ASCII case. */
  predicate StartsWithFolded(s: string, word: string) {
    |word| <= |s| && forall i :: 0 <= i < |word| ==> LowerChar(s[i]) == word[i]
  }

  /** Length of the match of `\s+\d+` at the start of `s`, if any. */
  function SpacedNumber(s: string): (r: Option<nat>)
    ensures r.Some? ==> 0 < r.value <= |s|
  {
    var w := RunLen(s, Space);
    var d := w + RunLen(s[w..], Digit);
    if w == 0 || d == w then None else Some(d)
  }

  /** Length of the match of `\s+of\s+\d+` (IGNORECASE) at the start of `s`. */
  function OfNumber(s: string): (r: Option<nat>)
    ensures r.Some? ==> 0 < r.value <= |s|
  {
    OfAfter(s, RunLen(s, Space))
  }

  /** The rest of `OfNumber` once the leading `\s+` has taken `w` characters. */
  function OfAfter(s: string, w: nat): (r: Option<nat>)
    requires w <= |s|
    ensures r.Some? ==> 0 < r.value <= |s|
  {
    if w == 0 || !StartsWithFolded(s[w..], "of") then None
    else
      var b := SpacedNumber(s[w + 2..]);
      if b.None? then None else Some(w + 2 + b.value)
  }

  /** Length of the match of `Page\s+\d+\s+of\s+\d+` (IGNORECASE) at the start of
      `s`, if any. The classes `\s`, `\d` and the letters of "of" are pairwise
      disjoint, so greedy matching never backtracks: each `+` takes its whole run. */
  function PageMarker(s: string): (r: Option<nat>)
    ensures r.Some? ==> 0 < r.value <= |s|
  {
    if !StartsWithFolded(s, "page") then None
    else
      var a := SpacedNumber(s[4..]);
      if a.None? then None
      else
        var c := OfNumber(s[4 + a.value..]);
        if c.None? then None else Some(4 + a.value + c.value)
  }

  /** `re.sub(r"Page\s+\d+\s+of\s+\d+", "", text, flags=re.IGNORECASE)`. */
  function RemovePageMarkers(s: string): (r: string)
    ensures |r| <= |s|
    decreases |s|
  {
    if |s| == 0 then ""
    else
      match PageMarker(s)
      case Some(n) => RemovePageMarkers(s[n..])
      case None => [s[0]] + RemovePageMarkers(s[1..])
  }

  /** No position of `s` starts a page marker. */
  predicate NoPageMarker(s: string) {
    forall i :: 0 <= i <= |s| ==> PageMarker(s[i..]).None?
  }

  /** Text without page markers passes the first pass unchanged. */
  lemma {:induction false} RemovePageMarkersUnchanged(s: string)
    requires NoPageMarker(s)
    ensures RemovePageMarkers(s) == s
    decreases |s|
  {
    if |s| > 0 {
      assert PageMarker(s[0..]).None? && s[0..] == s;
      assert forall i :: 0 <= i <= |s| - 1 ==> s[1..][i..] == s[i + 1..];
      RemovePageMarkersUnchanged(s[1..]);
      assert s == [s[0]] + s[1..];
    }
  }

  /** `s[i..j]` is a non-empty run of class `k`: what one `\s+` or `\d+` takes. */
  predicate Span(s: string, i: nat, j: nat, k: Class) {
    i < j <= |s| && forall m :: i <= m < j ==> In(s[m], k)
  }

  /** A marker `Page <n> of <m>`, in any letter case and with any whitespace
      runs between its words, is recognised in full: "page" at 0, whitespace up
      to `i1`, digits up to `i2`, whitespace up to `i3`, "of", whitespace up to
      `i4` and digits up to `n`, provided no digit follows. */
  lemma PageMarkerOf(s: string, i1: nat, i2: nat, i3: nat, i4: nat, n: nat)
    requires StartsWithFolded(s, "page")
    requires Span(s, 4, i1, Space) && Span(s, i1, i2, Digit) && Span(s, i2, i3, Space)
    requires i3 <= |s| && StartsWithFolded(s[i3..], "of")
    requires Span(s, i3 + 2, i4, Space) && Span(s, i4, n, Digit)
    requires n < |s| ==> !IsDigit(s[n])
    ensures PageMarker(s).Some? && PageMarker(s).value == n
  {
    SpacedNumberFrom(s, 4, i1, i2);
    OfTailFrom(s, i2, i3, i4, n);
    var a: nat, c: nat := i2 - 4, n - i2;
    assert s[4 + a..] == s[i2..];
    PageMarkerUnfold(s, a, c);
  }

  /** `\s+of\s+\d+` matches `s[i2..n]` for the positions of `PageMarkerOf`. */
  lemma OfTailFrom(s: string, i2: nat, i3: nat, i4: nat, n: nat)
    requires Span(s, i2, i3, Space) && i3 <= |s| && StartsWithFolded(s[i3..], "of")
    requires Span(s, i3 + 2, i4, Space) && Span(s, i4, n, Digit)
    requires n < |s| ==> !IsDigit(s[n])
    ensures OfNumber(s[i2..]).Some? && OfNumber(s[i2..]).value == n - i2
  {
    SpacedNumberFrom(s, i3 + 2, i4, n);
    OfNumberFrom(s, i2, i3, n);
  }

  /** Such a marker at the start of the text is deleted entirely. */
  lemma RemovesPageMarker(s: string, i1: nat, i2: nat, i3: nat, i4: nat, n: nat)
    requires StartsWithFolded(s, "page")
    requires Span(s, 4, i1, Space) && Span(s, i1, i2, Digit) && Span(s, i2, i3, Space)
    requires i3 <= |s| && StartsWithFolded(s[i3..], "of")
    requires Span(s, i3 + 2, i4, Space) && Span(s, i4, n, Digit)
    requires n < |s| ==> !IsDigit(s[n])
    ensures RemovePageMarkers(s) == RemovePageMarkers(s[n..])
  {
    PageMarkerOf(s, i1, i2, i3, i4, n);
  }

  lemma PageMarkerUnfold(s: string, a: nat, c: nat)
    requires StartsWithFolded(s, "page") && SpacedNumber(s[4..]).Some? && SpacedNumber(s[4..]).value == a
    requires 4 + a <= |s| && OfNumber(s[4 + a..]).Some? && OfNumber(s[4 + a..]).value == c
    ensures PageMarker(s).Some? && PageMarker(s).value == 4 + a + c
  {
  }

  /** `\s+\d+` matches `s[i..n]` when whitespace runs from `i` to `w` and
      digits from `w` to `n`. */
  lemma SpacedNumberFrom(s: string, i: nat, w: nat, n: nat)
    requires Span(s, i, w, Space) && Span(s, w, n, Digit)
    requires n < |s| ==> !IsDigit(s[n])
    ensures SpacedNumber(s[i..]).Some? && SpacedNumber(s[i..]).value == n - i
  {
    var t := s[i..];
    RunLenAt(t, Space, w - i);
    assert t[w - i..] == s[w..];
    RunLenAt(s[w..], Digit, n - w);
  }

  /** `\s+of\s+\d+` matches `s[i..n]` when whitespace runs from `i` to `w`,
      "of" follows, and `\s+\d+` matches from `w + 2` to `n`. */
  lemma OfNumberFrom(s: string, i: nat, w: nat, n: nat)
    requires Span(s, i, w, Space) && w <= |s| && StartsWithFolded(s[w..], "of")
    requires w + 2 <= n && SpacedNumber(s[w + 2..]).Some? && SpacedNumber(s[w + 2..]).value == n - (w + 2)
    ensures OfNumber(s[i..]).Some? && OfNumber(s[i..]).value == n - i
  {
    var t := s[i..];
    assert !IsSpace(s[w]) by {
      assert s[w..][0] == s[w] && LowerChar(s[w]) == 'o';
    }
    RunLenAt(t, Space, w - i);
    assert t[w - i..] == s[w..];
    assert t[w - i + 2..] == s[w + 2..];
    OfNumberUnfold(t, w - i, n - (w + 2));
  }

  lemma OfNumberUnfold(t: string, w: nat, c: nat)
    requires 0 < w && RunLen(t, Space) == w && w + 2 <= |t|
    requires StartsWithFolded(t[w..], "of") && SpacedNumber(t[w + 2..]).Some? && SpacedNumber(t[w + 2..]).value == c
    ensures OfNumber(t).Some? && OfNumber(t).value == w + 2 + c
  {
    assert OfAfter(t, w).Some? && OfAfter(t, w).value == w + 2 + c;
  }

  lemma FoldedPrefix(p: string, rest: string, word: string)
    requires |p| == |word| && Lower(p) == word
    ensures StartsWithFolded(p + rest, word)
  {
    assert forall i :: 0 <= i < |p| ==> (p + rest)[i] == p[i];
  }

  lemma RunLenAt(s: string, k: Class, n: nat)
    requires n <= |s|
    requires forall i :: 0 <= i < n ==> In(s[i], k)
    requires n < |s| ==> !In(s[n], k)
    ensures RunLen(s, k) == n
  {
  }

  /** `re.sub(r"-\n", "", text)`: every hyphen directly before a newline is
      deleted together with that newline. */
  function JoinHyphenBreaks(s: string): (r: string)
    ensures |r| <= |s|
    decreases |s|
  {
    if |s| >= 2 && s[0] == '-' && s[1] == '\n' then JoinHyphenBreaks(s[2..])
    else if |s| == 0 then ""
    else [s[0]] + JoinHyphenBreaks(s[1..])
  }

  /** The pass works piecewise wherever the cut does not split a "-\n" pair. */
  lemma {:induction false} JoinHyphenBreaksAppend(a: string, b: string)
    requires !(|a| > 0 && a[|a| - 1] == '-' && |b| > 0 && b[0] == '\n')
    ensures JoinHyphenBreaks(a + b) == JoinHyphenBreaks(a) + JoinHyphenBreaks(b)
    decreases |a|
  {
    if |a| == 0 {
      assert a + b == b;
    } else if |a| >= 2 && a[0] == '-' && a[1] == '\n' {
      JoinHyphenBreaksAppend(a[2..], b);
      AppendPairStep(a, b);
    } else {
      if |a| > 1 {
        assert a[1..][|a[1..]| - 1] == a[|a| - 1];
      }
      JoinHyphenBreaksAppend(a[1..], b);
      AppendHeadStep(a, b);
    }
  }

  /** The inductive step of `JoinHyphenBreaksAppend` at a leading "-\n" pair. */
  lemma AppendPairStep(a: string, b: string)
    requires |a| >= 2 && a[0] == '-' && a[1] == '\n'
    requires JoinHyphenBreaks(a[2..] + b) == JoinHyphenBreaks(a[2..]) + JoinHyphenBreaks(b)
    ensures JoinHyphenBreaks(a + b) == JoinHyphenBreaks(a) + JoinHyphenBreaks(b)
  {
    DropAppend(a, b, 2);
    JoinAtPair(a + b);
    JoinAtPair(a);
  }

  /** The inductive step of `JoinHyphenBreaksAppend` at any other first character. */
  lemma AppendHeadStep(a: string, b: string)
    requires |a| > 0 && !(|a| >= 2 && a[0] == '-' && a[1] == '\n')
    requires !(a[|a| - 1] == '-' && |b| > 0 && b[0] == '\n')
    requires JoinHyphenBreaks(a[1..] + b) == JoinHyphenBreaks(a[1..]) + JoinHyphenBreaks(b)
    ensures JoinHyphenBreaks(a + b) == JoinHyphenBreaks(a) + JoinHyphenBreaks(b)
  {
    var ab, rest := a + b, a[1..];
    assert !(|ab| >= 2 && ab[0] == '-' && ab[1] == '\n') by {
      assert ab[0] == a[0];
      if |a| == 1 && |ab| >= 2 {
        assert ab[1] == b[0];
      } else if |ab| >= 2 {
        assert ab[1] == a[1];
      }
    }
    calc {
      JoinHyphenBreaks(ab);
      == { JoinAtHead(ab); }
      [ab[0]] + JoinHyphenBreaks(ab[1..]);
      == { DropAppend(a, b, 1); }
      [a[0]] + (JoinHyphenBreaks(rest) + JoinHyphenBreaks(b));
      == { ConsAppend(a[0], JoinHyphenBreaks(rest), JoinHyphenBreaks(b)); }
      ([a[0]] + JoinHyphenBreaks(rest)) + JoinHyphenBreaks(b);
      == { JoinAtHead(a); }
      JoinHyphenBreaks(a) + JoinHyphenBreaks(b);
    }
  }

  lemma DropAppend(a: string, b: string, k: nat)
    requires k <= |a|
    ensures (a + b)[k..] == a[k..] + b
  {
  }

  lemma ConsAppend(c: char, x: string, y: string)
    ensures ([c] + x) + y == [c] + (x + y)
  {
  }

  lemma JoinAtPair(s: string)
    requires |s| >= 2 && s[0] == '-' && s[1] == '\n'
    ensures JoinHyphenBreaks(s) == JoinHyphenBreaks(s[2..])
  {
  }

  lemma JoinAtHead(s: string)
    requires |s| > 0 && !(|s| >= 2 && s[0] == '-' && s[1] == '\n')
    ensures JoinHyphenBreaks(s) == [s[0]] + JoinHyphenBreaks(s[1..])
  {
  }

  /** A hyphenated line break disappears and the word halves are joined. */
  lemma JoinsHyphenatedWord(a: string, b: string)
    ensures JoinHyphenBreaks(a + "-\n" + b) == JoinHyphenBreaks(a) + JoinHyphenBreaks(b)
  {
    var h := "-\n";
    assert JoinHyphenBreaks(h + b) == JoinHyphenBreaks(b) by {
      assert (h + b)[2..] == b;
    }
    JoinHyphenBreaksAppend(a, h + b);
    assert a + "-\n" + b == a + (h + b);
  }

  /** Text without hyphens is untouched. */
  lemma {:induction false} JoinHyphenBreaksNoHyphen(s: string)
    requires forall i :: 0 <= i < |s| ==> s[i] != '-'
    ensures JoinHyphenBreaks(s) == s
    decreases |s|
  {
    if |s| > 0 {
      JoinHyphenBreaksNoHyphen(s[1..]);
      assert s == [s[0]] + s[1..];
    }
  }

  /** No three consecutive newlines. */
  predicate NoTripleNewline(s: string) {
    forall i :: 0 <= i && i + 2 < |s| ==> !(s[i] == '\n' && s[i + 1] == '\n' && s[i + 2] == '\n')
  }

  /** `re.sub(r"\n{3,}", "\n\n", text)`: a run of three or more newlines becomes
      exactly two; shorter runs stay. */
  function CollapseNewlines(s: string): (r: string)
    ensures |r| <= |s|
    ensures |s| > 0 ==> |r| > 0 && (r[0] == '\n' <==> s[0] == '\n')
    ensures NoTripleNewline(r)
    decreases |s|
  {
    if |s| == 0 then ""
    else if s[0] == '\n' then
      var n := RunLen(s, Newline);
      var piece := if n >= 3 then "\n\n" else s[..n];
      var rest := CollapseNewlines(s[n..]);
      NewlinesBeforeText(piece, rest);
      piece + rest
    else
      var rest := CollapseNewlines(s[1..]);
      NoTripleCons(s[0], rest);
      [s[0]] + rest
  }

  /** One or two newlines before text that does not start with one make no
      triple newline. */
  lemma NewlinesBeforeText(piece: string, rest: string)
    requires 0 < |piece| <= 2 && forall k :: 0 <= k < |piece| ==> piece[k] == '\n'
    requires NoTripleNewline(rest) && (|rest| > 0 ==> rest[0] != '\n')
    ensures NoTripleNewline(piece + rest)
  {
    var r := piece + rest;
    forall i | 0 <= i && i + 2 < |r|
      ensures !(r[i] == '\n' && r[i + 1] == '\n' && r[i + 2] == '\n')
    {
      if i < |piece| {
        assert r[|piece|] == rest[0];
      } else {
        assert r[i] == rest[i - |piece|] && r[i + 1] == rest[i + 1 - |piece|] && r[i + 2] == rest[i + 2 - |piece|];
      }
    }
  }

  /** Collapsing changes nothing once no run of three newlines is left, so the
      pass is idempotent. */
  lemma {:induction false} CollapseUnchanged(s: string)
    requires NoTripleNewline(s)
    ensures CollapseNewlines(s) == s
    decreases |s|
  {
    if |s| > 0 {
      if s[0] == '\n' {
        var n := RunLen(s, Newline);
        assert |s| >= 3 ==> !(s[0] == '\n' && s[1] == '\n' && s[2] == '\n');
        SuffixNoTriple(s, n);
        CollapseUnchanged(s[n..]);
        assert s == s[..n] + s[n..];
      } else {
        SuffixNoTriple(s, 1);
        CollapseUnchanged(s[1..]);
        assert s == [s[0]] + s[1..];
      }
    }
  }

  lemma CollapseIdempotent(s: string)
    ensures CollapseNewlines(CollapseNewlines(s)) == CollapseNewlines(s)
  {
    CollapseUnchanged(CollapseNewlines(s));
  }

  /** No two neighbouring spaces or tabs. */
  predicate NoDoubleBlank(s: string) {
    forall i :: 0 <= i && i + 1 < |s| ==> !(IsBlank(s[i]) && IsBlank(s[i + 1]))
  }

  /** `re.sub(r"[ \t]{2,}", " ", text)`: a run of two or more spaces and tabs
      becomes one space; a lone space or tab stays as it is. */
  function SqueezeBlanks(s: string): (r: string)
    ensures |r| <= |s|
    ensures |s| > 0 ==> |r| > 0 && (IsBlank(r[0]) <==> IsBlank(s[0]))
    ensures NoDoubleBlank(r)
    decreases |s|
  {
    if |s| == 0 then ""
    else if IsBlank(s[0]) then
      var n := RunLen(s, Blank);
      var piece := if n >= 2 then " " else [s[0]];
      var rest := SqueezeBlanks(s[n..]);
      assert |rest| > 0 ==> !IsBlank(rest[0]);
      assert forall i :: 0 <= i < |rest| ==> (piece + rest)[1 + i] == rest[i];
      piece + rest
    else
      var rest := SqueezeBlanks(s[1..]);
      assert forall i :: 0 <= i < |rest| ==> ([s[0]] + rest)[1 + i] == rest[i];
      [s[0]] + rest
  }

  /** Squeezing blanks leaves a leading run of newlines as it is. */
  lemma {:induction false} SqueezeNewlineRun(s: string)
    ensures RunLen(SqueezeBlanks(s), Newline) == RunLen(s, Newline)
    decreases |s|
  {
    if |s| > 0 && s[0] == '\n' {
      SqueezeNewlineRun(s[1..]);
      var rest := SqueezeBlanks(s[1..]);
      assert SqueezeBlanks(s) == [s[0]] + rest;
      assert ([s[0]] + rest)[1..] == rest;
    }
  }

  /** Squeezing blanks never joins newlines into a run of three. */
  lemma {:induction false} SqueezeKeepsNoTriple(s: string)
    requires NoTripleNewline(s)
    ensures NoTripleNewline(SqueezeBlanks(s))
    decreases |s|
  {
    if |s| > 0 {
      if IsBlank(s[0]) {
        var n := RunLen(s, Blank);
        SuffixNoTriple(s, n);
        SqueezeKeepsNoTriple(s[n..]);
        var rest := SqueezeBlanks(s[n..]);
        var piece := if n >= 2 then " " else [s[0]];
        assert SqueezeBlanks(s) == [piece[0]] + rest;
        NoTripleCons(piece[0], rest);
      } else {
        SuffixNoTriple(s, 1);
        SqueezeKeepsNoTriple(s[1..]);
        var rest := SqueezeBlanks(s[1..]);
        assert SqueezeBlanks(s) == [s[0]] + rest;
        SqueezeNewlineRun(s[1..]);
        RunLenTwo(s[1..], Newline);
        assert |s| >= 3 ==> !(s[0] == '\n' && s[1..][0] == '\n' && s[1..][1] == '\n');
        NoTripleCons(s[0], rest);
      }
    }
  }

  /** A character put in front of text with no triple newline makes none,
      unless it is a newline before two more. */
  lemma NoTripleCons(c: char, rest: string)
    requires NoTripleNewline(rest)
    requires c == '\n' ==> RunLen(rest, Newline) < 2
    ensures NoTripleNewline([c] + rest)
  {
    var r := [c] + rest;
    forall i | 0 <= i && i + 2 < |r|
      ensures !(r[i] == '\n' && r[i + 1] == '\n' && r[i + 2] == '\n')
    {
      if i == 0 {
        RunLenTwo(rest, Newline);
      } else {
        assert r[i] == rest[i - 1] && r[i + 1] == rest[i] && r[i + 2] == rest[i + 1];
      }
    }
  }

  lemma RunLenTwo(t: string, k: Class)
    ensures RunLen(t, k) >= 2 <==> |t| >= 2 && In(t[0], k) && In(t[1], k)
  {
  }

  lemma SuffixNoTriple(s: string, n: nat)
    requires n <= |s| && NoTripleNewline(s)
    ensures NoTripleNewline(s[n..])
  {
    forall i | 0 <= i && i + 2 < |s[n..]|
      ensures !(s[n..][i] == '\n' && s[n..][i + 1] == '\n' && s[n..][i + 2] == '\n')
    {
      assert s[n..][i] == s[n + i] && s[n..][i + 1] == s[n + i + 1] && s[n..][i + 2] == s[n + i + 2];
    }
  }

  /** Squeezing changes nothing once no two blanks touch. */
  lemma {:induction false} SqueezeUnchanged(s: string)
    requires NoDoubleBlank(s)
    ensures SqueezeBlanks(s) == s
    decreases |s|
  {
    if |s| > 0 {
      assert |s| >= 2 ==> !(IsBlank(s[0]) && IsBlank(s[1]));
      SliceKeepsShape(s, 1, |s|);
      assert s[1..|s|] == s[1..];
      SqueezeUnchanged(s[1..]);
      assert s == [s[0]] + s[1..];
    }
  }

  /** A slice keeps both "no triple newline" and "no double blank". */
  lemma SliceKeepsShape(s: string, a: nat, b: nat)
    requires a <= b <= |s|
    ensures NoTripleNewline(s) ==> NoTripleNewline(s[a..b])
    ensures NoDoubleBlank(s) ==> NoDoubleBlank(s[a..b])
  {
    var t := s[a..b];
    assert forall i :: 0 <= i < |t| ==> t[i] == s[a + i];
  }

  lemma StripKeepsShape(s: string)
    ensures NoTripleNewline(s) ==> NoTripleNewline(Strip(s))
    ensures NoDoubleBlank(s) ==> NoDoubleBlank(Strip(s))
  {
    StripShape(s);
    SliceKeepsShape(s, StripStart(s), StripStart(s) + |Strip(s)|);
  }

  /** Everything before the final strip. */
  function Passes(text: string): (r: string)
    ensures |r| <= |text|
    ensures NoTripleNewline(r) && NoDoubleBlank(r)
  {
    var collapsed := CollapseNewlines(JoinHyphenBreaks(RemovePageMarkers(text)));
    SqueezeKeepsNoTriple(collapsed);
    SqueezeBlanks(collapsed)
  }

  /** `clean_text(text)`. */
  function CleanText(text: string): (r: string)
    ensures text == "" ==> r == ""
    ensures |r| <= |text|
    ensures |r| > 0 ==> !IsSpace(r[0]) && !IsSpace(r[|r| - 1])
    ensures NoTripleNewline(r)
    ensures NoDoubleBlank(r)
  {
    if text == "" then ""
    else
      var p := Passes(text);
      StripKeepsShape(p);
      Strip(p)
  }

  /** Text that is already clean (no page marker, no hyphenated break, no run of
      three newlines, no doubled blank, no surrounding whitespace) is returned
      as it is. */
  lemma CleanTextFixpoint(text: string)
    requires NoPageMarker(text)
    requires forall i :: 0 <= i < |text| ==> text[i] != '-'
    requires NoTripleNewline(text) && NoDoubleBlank(text)
    requires |text| > 0 ==> !IsSpace(text[0]) && !IsSpace(text[|text| - 1])
    ensures CleanText(text) == text
  {
    if text != "" {
      RemovePageMarkersUnchanged(text);
      JoinHyphenBreaksNoHyphen(text);
      CollapseUnchanged(text);
      SqueezeUnchanged(text);
      StripUnchanged(text);
    }
  }
}
