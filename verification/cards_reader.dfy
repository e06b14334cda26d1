/** The card reader: content split into sentences, sentences paired into cards, and the
    reading progress reported when a card scrolls into view.

    The sentence split is the global match of `[^.!?]+[.!?]+["']?|[^.!?]+$`, written here
    as a scanner: a stray terminator where no match can start is skipped; otherwise the
    match is the maximal run of non-terminators, then (unless the run reaches the end) the
    maximal run of terminators and one optional quote. */
module CardsReader {
  import opened Wrappers
  import opened Text
  import Seqs

  /** The card shown for empty content. */
  const Placeholder := "No content available to read."

  predicate IsTerminator(c: char) {
    c == '.' || c == '!' || c == '?'
  }

  predicate IsQuote(c: char) {
    c == '"' || c == '\''
  }

  predicate HasTerminator(s: string) {
    exists k :: 0 <= k < |s| && IsTerminator(s[k])
  }

  /** Length of the maximal prefix without terminators (`[^.!?]+`, greedy). */
  function RunLength(s: string): (n: nat)
    ensures n <= |s|
    ensures forall k :: 0 <= k < n ==> !IsTerminator(s[k])
    ensures n < |s| ==> IsTerminator(s[n])
  {
    if |s| == 0 || IsTerminator(s[0]) then 0 else 1 + RunLength(s[1..])
  }

  /** Length of the maximal prefix of terminators (`[.!?]+`, greedy). */
  function TermLength(s: string): (n: nat)
    ensures n <= |s|
    ensures forall k :: 0 <= k < n ==> IsTerminator(s[k])
    ensures n < |s| ==> !IsTerminator(s[n])
  {
    if |s| == 0 || !IsTerminator(s[0]) then 0 else 1 + TermLength(s[1..])
  }

  /** `seg` is a match with its text run ending at `i` and its terminators at `i..j`: either
      the run reaches the end (`i == j == |seg|`), or one or more terminators follow, then
      at most one quote. */
  predicate ShapeAt(seg: string, i: nat, j: nat) {
    && 0 < i <= j <= |seg|
    && (forall k :: 0 <= k < i ==> !IsTerminator(seg[k]))
    && (forall k :: i <= k < j ==> IsTerminator(seg[k]))
    && (j == |seg| || (j + 1 == |seg| && IsQuote(seg[j])))
    && (i == j ==> j == |seg|)
  }

  /** `seg` is one match of the sentence pattern. */
  predicate IsSentence(seg: string) {
    exists i: nat, j: nat :: i <= j <= |seg| && ShapeAt(seg, i, j)
  }

  /** The characters of `s` that are not terminators, in order. */
  function Letters(s: string): string {
    if |s| == 0 then []
    else (if IsTerminator(s[0]) then [] else [s[0]]) + Letters(s[1..])
  }

  lemma {:induction false} LettersConcat(a: string, b: string)
    ensures Letters(a + b) == Letters(a) + Letters(b)
  {
    if |a| == 0 {
      assert a + b == b;
    } else {
      assert (a + b)[0] == a[0];
      assert (a + b)[1..] == a[1..] + b;
      LettersConcat(a[1..], b);
    }
  }

  /** `Letters` is empty exactly when every character is a terminator. */
  lemma {:induction false} LettersEmpty(s: string)
    ensures Letters(s) == [] <==> forall k :: 0 <= k < |s| ==> IsTerminator(s[k])
  {
    if |s| > 0 {
      LettersEmpty(s[1..]);
      assert forall k :: 1 <= k < |s| ==> s[k] == s[1..][k - 1];
    }
  }

  /** The concatenation of a list of strings. */
  function Concat(ss: seq<string>): string {
    if |ss| == 0 then "" else ss[0] + Concat(ss[1..])
  }

  /** `n` is where a match starting at the front of `s` may end for the global match to be
      greedy: at the end of the input, or after a terminator, and in the latter case a
      match ending in a terminator is followed by neither a terminator nor a quote. */
  predicate EndsMatch(s: string, n: nat)
    requires 0 < n <= |s|
  {
    n == |s|
    || (HasTerminator(s[..n]) && (IsTerminator(s[n - 1]) ==> !IsTerminator(s[n]) && !IsQuote(s[n])))
  }

  /** `r` lists the matches of a left-to-right scan of `s`: stray terminators are skipped,
      each match starts at a non-terminator, is a prefix of what is left and ends where
      `EndsMatch` allows, and the scan resumes right after it. */
  predicate SplitsInto(s: string, r: seq<string>)
    decreases |s|
  {
    if |s| == 0 then r == []
    else if IsTerminator(s[0]) then SplitsInto(s[1..], r)
    else
      && |r| > 0 && 0 < |r[0]| <= |s| && s[..|r[0]|] == r[0]
      && EndsMatch(s, |r[0]|)
      && SplitsInto(s[|r[0]|..], r[1..])
  }

  /** What the scan promises of its matches `r` of `s`: each is a well-formed match, only the
      last can lack a terminator, together they keep every non-terminator of `s` exactly once
      and in order, there is none exactly when `s` is all terminators, and they are the ones
      a greedy left-to-right scan finds. */
  predicate Matches(s: string, r: seq<string>) {
    && (forall m :: 0 <= m < |r| ==> IsSentence(r[m]))
    && (forall m :: 0 <= m < |r| - 1 ==> HasTerminator(r[m]))
    && Letters(Concat(r)) == Letters(s)
    && (r == [] <==> forall k :: 0 <= k < |s| ==> IsTerminator(s[k]))
    && SplitsInto(s, r)
  }

  /** All matches of the sentence pattern, left to right. */
  function Segments(s: string): (r: seq<string>)
    ensures Matches(s, r)
    decreases |s|
  {
    if |s| == 0 then []
    else if IsTerminator(s[0]) then
      var rest := Segments(s[1..]);
      SkipTerminator(s, rest);
      rest
    else
      var k := MatchEnd(s);
      var rest := Segments(s[k..]);
      MatchStep(s, rest);
      [s[..k]] + rest
  }

  /** Where the scan ends the match that starts at the front of `s`: after the run of
      non-terminators when it reaches the end, otherwise after the run of terminators that
      follows it and one optional quote. */
  function MatchEnd(s: string): (k: nat)
    requires |s| > 0 && !IsTerminator(s[0])
    ensures 0 < k <= |s|
  {
    var i := RunLength(s);
    if i == |s| then |s|
    else
      var j := i + TermLength(s[i..]);
      if j < |s| && IsQuote(s[j]) then j + 1 else j
  }

  /** Splitting off the match at the front keeps every promise of the scan. */
  lemma MatchStep(s: string, rest: seq<string>)
    requires |s| > 0 && !IsTerminator(s[0]) && Matches(s[MatchEnd(s)..], rest)
    ensures Matches(s, [s[..MatchEnd(s)]] + rest)
  {
    var i := RunLength(s);
    if i == |s| {
      assert MatchEnd(s) == |s|;
      EmptyMatches(s[|s|..], rest);
      assert s[..|s|] == s;
      assert [s[..MatchEnd(s)]] + rest == [s];
      WholeRun(s);
    } else {
      var j := i + TermLength(s[i..]);
      var k := if j < |s| && IsQuote(s[j]) then j + 1 else j;
      assert MatchEnd(s) == k;
      SplitStep(s, i, j, k, rest);
    }
  }

  /** The empty input has no match. */
  lemma EmptyMatches(e: string, rest: seq<string>)
    requires e == "" && Matches(e, rest)
    ensures rest == []
  {
  }

  /** A terminator where no match can start is skipped without losing anything. */
  lemma SkipTerminator(s: string, rest: seq<string>)
    requires |s| > 0 && IsTerminator(s[0]) && Matches(s[1..], rest)
    ensures Matches(s, rest)
  {
    assert forall k :: 1 <= k < |s| ==> s[k] == s[1..][k - 1];
  }

  /** A run without terminators that reaches the end is one match (the pattern's second
      alternative). */
  lemma WholeRun(s: string)
    requires |s| > 0 && RunLength(s) == |s|
    ensures Matches(s, [s])
  {
    assert s[..|s|] == s && s[|s|..] == "" && [s][1..] == [];
    assert ShapeAt(s, |s|, |s|);
    assert Concat([s]) == s by {
      assert s + "" == s;
    }
  }

  /** A run followed by terminators (and an optional quote) is one match, and splitting it
      off loses no character. */
  lemma SplitStep(s: string, i: nat, j: nat, k: nat, rest: seq<string>)
    requires |s| > 0 && !IsTerminator(s[0]) && i == RunLength(s) && i < |s|
    requires j == i + TermLength(s[i..])
    requires k == if j < |s| && IsQuote(s[j]) then j + 1 else j
    requires Matches(s[k..], rest)
    ensures Matches(s, [s[..k]] + rest)
  {
    MatchShape(s, i, j, k);
    LettersStep(s, k, rest);
    ScanStep(s, i, j, k, rest);
    ConsMatch(s, k, rest);
  }

  /** The run, its terminators and the optional quote form one match with a terminator. */
  lemma {:induction false} MatchShape(s: string, i: nat, j: nat, k: nat)
    requires |s| > 0 && !IsTerminator(s[0]) && i == RunLength(s) && i < |s|
    requires j == i + TermLength(s[i..])
    requires k == if j < |s| && IsQuote(s[j]) then j + 1 else j
    ensures IsSentence(s[..k]) && HasTerminator(s[..k])
  {
    var seg := s[..k];
    var t := s[i..];
    assert 0 < i < j <= k == |seg| by {
      assert IsTerminator(t[0]);
    }
    forall m | 0 <= m < i ensures !IsTerminator(seg[m]) {
      assert seg[m] == s[m];
    }
    forall m | i <= m < j ensures IsTerminator(seg[m]) {
      assert seg[m] == t[m - i];
    }
    assert j == |seg| || (j + 1 == |seg| && IsQuote(seg[j]));
    assert ShapeAt(seg, i, j);
    assert IsTerminator(seg[i]);
  }

  /** Splitting off a prefix as the first match loses no character. */
  lemma LettersStep(s: string, k: nat, rest: seq<string>)
    requires k <= |s| && Letters(Concat(rest)) == Letters(s[k..])
    ensures Letters(Concat([s[..k]] + rest)) == Letters(s)
  {
    var seg := s[..k];
    assert ([seg] + rest)[0] == seg && ([seg] + rest)[1..] == rest;
    assert s == seg + s[k..];
    LettersConcat(seg, s[k..]);
    LettersConcat(seg, Concat(rest));
  }

  /** A match with a terminator in front of well-formed matches gives well-formed matches,
      of which only the last can lack a terminator. */
  lemma ConsMatch(s: string, k: nat, rest: seq<string>)
    requires 0 < k <= |s| && !IsTerminator(s[0])
    requires IsSentence(s[..k]) && HasTerminator(s[..k])
    requires forall m :: 0 <= m < |rest| ==> IsSentence(rest[m])
    requires forall m :: 0 <= m < |rest| - 1 ==> HasTerminator(rest[m])
    ensures var r := [s[..k]] + rest;
            && (forall m :: 0 <= m < |r| ==> IsSentence(r[m]))
            && (forall m :: 0 <= m < |r| - 1 ==> HasTerminator(r[m]))
            && (r == [] <==> forall k :: 0 <= k < |s| ==> IsTerminator(s[k]))
  {
    var r := [s[..k]] + rest;
    assert forall m :: 1 <= m < |r| ==> r[m] == rest[m - 1];
  }

  /** The match split off by `SplitStep` ends where a greedy scan ends it. */
  lemma ScanStep(s: string, i: nat, j: nat, k: nat, rest: seq<string>)
    requires |s| > 0 && !IsTerminator(s[0]) && i == RunLength(s) && i < |s|
    requires j == i + TermLength(s[i..])
    requires k == if j < |s| && IsQuote(s[j]) then j + 1 else j
    requires HasTerminator(s[..k])
    requires SplitsInto(s[k..], rest)
    ensures SplitsInto(s, [s[..k]] + rest)
  {
    var r := [s[..k]] + rest;
    assert TermLength(s[i..]) > 0;
    if k < |s| && IsTerminator(s[k - 1]) {
      assert k == j;
      assert s[k] == s[i..][j - i];
    }
    assert EndsMatch(s, k);
    assert r[0] == s[..k] && |r[0]| == k && r[1..] == rest;
  }

  /** A prefix that is a well-formed match and ends where a greedy scan may end one is the
      match the scan takes. */
  lemma {:induction false} MatchEndUnique(s: string, n: nat)
    requires |s| > 0 && !IsTerminator(s[0]) && 0 < n <= |s|
    requires IsSentence(s[..n]) && EndsMatch(s, n)
    ensures n == MatchEnd(s)
  {
    var i': nat, j': nat :| i' <= j' <= n && ShapeAt(s[..n], i', j');
    if i' == j' {
      RunMatchEnd(s, n, i');
    } else {
      TerminatedMatchEnd(s, n, i', j');
    }
  }

  /** A match that is one run of text ends where `MatchEnd` says: at the end of `s`. */
  lemma {:induction false} RunMatchEnd(s: string, n: nat, i': nat)
    requires |s| > 0 && !IsTerminator(s[0]) && 0 < n <= |s| && i' <= n
    requires ShapeAt(s[..n], i', i') && EndsMatch(s, n)
    ensures n == MatchEnd(s)
  {
    var seg := s[..n];
    assert !HasTerminator(seg);
    assert n == |s|;
    forall m | 0 <= m < n ensures !IsTerminator(s[m]) {
      assert s[m] == seg[m];
    }
    assert RunLength(s) == |s|;
  }

  /** A match with terminators ends where `MatchEnd` says. */
  lemma {:induction false} TerminatedMatchEnd(s: string, n: nat, i': nat, j': nat)
    requires |s| > 0 && !IsTerminator(s[0]) && 0 < n <= |s| && i' < j' <= n
    requires ShapeAt(s[..n], i', j') && EndsMatch(s, n)
    ensures n == MatchEnd(s)
  {
    var seg := s[..n];
    var i := RunLength(s);
    forall m | 0 <= m < i' ensures !IsTerminator(s[m]) {
      assert s[m] == seg[m];
    }
    assert IsTerminator(s[i']) by { assert s[i'] == seg[i']; }
    assert i == i';
    forall m | i <= m < j' ensures IsTerminator(s[m]) {
      assert s[m] == seg[m];
    }
    TermRunEnd(s, i, j');
  }

  /** The terminators from `i` to `e` followed by the end or by a non-terminator are the
      whole run `TermLength` measures, and the scan ends the match accordingly. */
  lemma {:induction false} TermRunEnd(s: string, i: nat, e: nat)
    requires |s| > 0 && !IsTerminator(s[0]) && i == RunLength(s) && i < e <= |s|
    requires forall m :: i <= m < e ==> IsTerminator(s[m])
    ensures e < |s| && !IsTerminator(s[e]) ==> i + TermLength(s[i..]) == e
    ensures e == |s| ==> i + TermLength(s[i..]) == e
  {
    var t := s[i..];
    forall m | 0 <= m < e - i ensures IsTerminator(t[m]) {
      assert t[m] == s[i + m];
    }
    if e < |s| {
      assert t[e - i] == s[e];
    }
  }

  /** The scan is deterministic: any list of well-formed matches a greedy left-to-right scan
      can produce is the one `Segments` returns. */
  lemma {:induction false} SegmentsUnique(s: string, r: seq<string>)
    requires SplitsInto(s, r)
    requires forall m :: 0 <= m < |r| ==> IsSentence(r[m])
    ensures r == Segments(s)
    decreases |s|
  {
    if |s| == 0 {
    } else if IsTerminator(s[0]) {
      SegmentsUnique(s[1..], r);
    } else {
      var n := |r[0]|;
      MatchEndUnique(s, n);
      SegmentsUnfold(s);
      var rest := r[1..];
      TailSentences(r);
      SegmentsUnique(s[n..], rest);
      assert r == [r[0]] + rest;
    }
  }

  /** Where the text starts with a non-terminator, the scan takes the match `MatchEnd`
      measures and continues after it. */
  lemma SegmentsUnfold(s: string)
    requires |s| > 0 && !IsTerminator(s[0])
    ensures Segments(s) == [s[..MatchEnd(s)]] + Segments(s[MatchEnd(s)..])
  {
  }

  /** Every match of a list is well-formed, so every match of its tail is. */
  lemma TailSentences(r: seq<string>)
    requires |r| > 0 && forall m :: 0 <= m < |r| ==> IsSentence(r[m])
    ensures forall m :: 0 <= m < |r[1..]| ==> IsSentence(r[1..][m])
  {
    forall m | 0 <= m < |r[1..]| ensures IsSentence(r[1..][m]) {
      assert r[1..][m] == r[m + 1];
    }
  }

  /** `content.match(...) || [content]`: the matches, or the whole content when there are none. */
  function Sentences(content: string): (r: seq<string>)
    ensures |r| > 0
    ensures (forall k :: 0 <= k < |content| ==> IsTerminator(content[k])) ==> r == [content]
    ensures !(forall k :: 0 <= k < |content| ==> IsTerminator(content[k])) ==>
              r == Segments(content)
  {
    var segs := Segments(content);
    if segs == [] then [content] else segs
  }

  /** Input without any terminator is one sentence. */
  lemma NoTerminatorOneSentence(content: string)
    requires content != "" && !HasTerminator(content)
    ensures Sentences(content) == [content]
  {
    var n := |content|;
    assert RunLength(content) == n;
    assert content[..n] == content && content[n..] == "";
    assert Segments(content) == [content[..n]] + Segments(content[n..]);
  }

  /** The trimmed sentences, with the ones that trim to nothing skipped. */
  function Kept(sentences: seq<string>): (r: seq<string>)
    ensures |r| <= |sentences|
    ensures forall m :: 0 <= m < |r| ==> r[m] != ""
  {
    if |sentences| == 0 then []
    else
      var t := Trim(sentences[|sentences| - 1]);
      var p := Kept(sentences[..|sentences| - 1]);
      if t == "" then p else p + [t]
  }

  predicate NonEmpty(t: string) {
    t != ""
  }

  /** The kept sentences are the trimmed sentences with the empty ones filtered out: the
      same strings in the same order, so a string is kept exactly when it is the non-empty
      trim of some sentence. */
  lemma {:induction false} KeptIsFilter(sentences: seq<string>)
    ensures Kept(sentences) == Seqs.Filter(Seqs.Map(sentences, Trim), NonEmpty)
    decreases |sentences|
  {
    if |sentences| > 0 {
      var n := |sentences| - 1;
      var pre, t := sentences[..n], Trim(sentences[n]);
      KeptIsFilter(pre);
      Seqs.LastSplit(sentences);
      Seqs.MapConcat(pre, [sentences[n]], Trim);
      Seqs.MapSingle(sentences[n], Trim);
      FilterNonEmptySnoc(Seqs.Map(pre, Trim), t);
    }
  }

  /** Filtering out empty strings after appending one string appends it when non-empty. */
  lemma FilterNonEmptySnoc(pre: seq<string>, t: string)
    ensures Seqs.Filter(pre + [t], NonEmpty)
         == Seqs.Filter(pre, NonEmpty) + (if t == "" then [] else [t])
  {
    Seqs.FilterConcat(pre, [t], NonEmpty);
    assert [t][1..] == [];
  }

  /** Card `i` for the kept sentences `ts`: sentences `2i` and `2i+1` joined by one space, or
      sentence `2i` alone when it is the last. */
  function CardAt(ts: seq<string>, i: nat): string
    requires 2 * i < |ts|
  {
    if 2 * i + 1 < |ts| then ts[2 * i] + " " + ts[2 * i + 1] else ts[2 * i]
  }

  /** The sentences grouped two by two, in order. */
  function Pair(ts: seq<string>): (r: seq<string>)
    ensures |r| == (|ts| + 1) / 2
    ensures forall i :: 0 <= i < |r| ==> r[i] == CardAt(ts, i)
  {
    if |ts| == 0 then []
    else if |ts| == 1 then [ts[0]]
    else
      var rest := Pair(ts[2..]);
      PairCons(ts, rest);
      [ts[0] + " " + ts[1]] + rest
  }

  /** The cards of all but the first two sentences, shifted one place, are the later cards. */
  lemma PairCons(ts: seq<string>, rest: seq<string>)
    requires |ts| >= 2 && |rest| == (|ts| - 1) / 2
    requires forall i :: 0 <= i < |rest| ==> rest[i] == CardAt(ts[2..], i)
    ensures |[ts[0] + " " + ts[1]] + rest| == (|ts| + 1) / 2
    ensures forall i :: 0 <= i < 1 + |rest| ==> ([ts[0] + " " + ts[1]] + rest)[i] == CardAt(ts, i)
  {
    var r := [ts[0] + " " + ts[1]] + rest;
    forall i | 0 <= i < 1 + |rest| ensures r[i] == CardAt(ts, i) {
      if i > 0 {
        assert r[i] == rest[i - 1] == CardAt(ts[2..], i - 1);
        assert ts[2..][2 * (i - 1)] == ts[2 * i];
        assert 2 * (i - 1) + 1 < |ts[2..]| ==> ts[2..][2 * (i - 1) + 1] == ts[2 * i + 1];
      }
    }
  }

  /** A card that is complete before a sentence is added is unchanged by it. */
  lemma CardAtSnoc(ts: seq<string>, x: string, i: nat)
    requires 2 * i + 1 < |ts| || (2 * i < |ts| && |ts| % 2 == 0)
    ensures CardAt(ts + [x], i) == CardAt(ts, i)
  {
    var t := ts + [x];
    assert t[2 * i] == ts[2 * i];
    if 2 * i + 1 < |ts| {
      assert t[2 * i + 1] == ts[2 * i + 1];
    }
  }

  /** Adding a sentence after an even number starts a new card. */
  lemma {:induction false} PairSnocEven(ts: seq<string>, x: string)
    requires |ts| % 2 == 0
    ensures Pair(ts + [x]) == Pair(ts) + [x]
  {
    var m := |ts| / 2;
    var t := ts + [x];
    var a, b := Pair(t), Pair(ts) + [x];
    assert |t| == 2 * m + 1 && |a| == m + 1 && |Pair(ts)| == m;
    forall i | 0 <= i < m + 1 ensures a[i] == b[i] {
      if i < m {
        CardAtSnoc(ts, x, i);
      } else {
        assert a[i] == CardAt(t, m) == t[2 * m] == x;
      }
    }
  }

  /** Adding a sentence after an odd number completes the last card. */
  lemma {:induction false} PairSnocOdd(ts: seq<string>, x: string)
    requires |ts| % 2 == 1
    ensures |Pair(ts)| > 0 && Pair(ts)[|Pair(ts)| - 1] == ts[|ts| - 1]
    ensures Pair(ts + [x]) == Pair(ts)[..|Pair(ts)| - 1] + [ts[|ts| - 1] + " " + x]
  {
    var m := |ts| / 2;
    var t := ts + [x];
    var p := Pair(ts);
    assert |ts| == 2 * m + 1 && |p| == m + 1;
    assert p[m] == CardAt(ts, m) == ts[2 * m];
    var a, b := Pair(t), p[..m] + [ts[2 * m] + " " + x];
    assert |t| == 2 * m + 2 && |a| == m + 1;
    forall i | 0 <= i < m + 1 ensures a[i] == b[i] {
      if i < m {
        CardAtSnoc(ts, x, i);
        assert b[i] == p[i];
      } else {
        CardAtSnocLast(ts, x);
      }
    }
  }

  /** Appending to an odd number of sentences completes the last card. */
  lemma CardAtSnocLast(ts: seq<string>, x: string)
    requires |ts| % 2 == 1
    ensures CardAt(ts + [x], |ts| / 2) == ts[|ts| - 1] + " " + x
  {
    var t := ts + [x];
    assert t[|ts| - 1] == ts[|ts| - 1] && t[|ts|] == x;
  }

  /** A single sentence is kept, trimmed, unless it is blank. */
  lemma KeptSingle(x: string)
    ensures Kept([x]) == if Trim(x) == "" then [] else [Trim(x)]
  {
    assert [x][..0] == [];
  }

  /** Extending the sentence list by one extends the kept list by its trimmed form, if any. */
  lemma KeptSnoc(prefix: seq<string>, x: string)
    ensures Kept(prefix + [x]) == Kept(prefix) + (if Trim(x) == "" then [] else [Trim(x)])
  {
    assert (prefix + [x])[..|prefix|] == prefix;
  }

  /** The cards for a content string. */
  function Cards(content: string): (r: seq<string>)
    ensures content == "" ==> r == [Placeholder]
    ensures content != "" ==> |r| == (|Kept(Sentences(content))| + 1) / 2
    ensures forall i :: 0 <= i < |r| ==> r[i] != ""
  {
    if content == "" then [Placeholder]
    else
      var ts := Kept(Sentences(content));
      PairNonEmpty(ts);
      Pair(ts)
  }

  /** Cards made of non-empty sentences are non-empty. */
  lemma PairNonEmpty(ts: seq<string>)
    requires forall m :: 0 <= m < |ts| ==> ts[m] != ""
    ensures forall i :: 0 <= i < |Pair(ts)| ==> Pair(ts)[i] != ""
  {
    forall i | 0 <= i < |Pair(ts)| ensures Pair(ts)[i] != "" {
      assert |CardAt(ts, i)| >= |ts[2 * i]| > 0;
    }
  }

  /** The loop state after the kept sentences `ts`: all complete cards in `chunks`, the card
      being filled in `current`, holding `count` sentences. */
  predicate ChunkState(ts: seq<string>, chunks: seq<string>, current: string, count: nat) {
    if |ts| == 0 then chunks == [] && current == "" && count == 0
    else chunks + [current] == Pair(ts) && current != ""
         && count == (if |ts| % 2 == 1 then 1 else 2)
  }

  /** A sentence joins the open card when it holds fewer than two. */
  lemma ChunkAppend(ts: seq<string>, chunks: seq<string>, current: string, count: nat, t: string)
    requires ChunkState(ts, chunks, current, count) && t != "" && count < 2
    ensures ChunkState(ts + [t], chunks, current + (if current != "" then " " else "") + t,
                       count + 1)
  {
    if count == 0 {
      assert |ts| == 0 && chunks == [] && current == "";
      assert ts + [t] == [t];
      assert Pair([t]) == [t];
      assert current + (if current != "" then " " else "") + t == t;
    } else {
      PairSnocOdd(ts, t);
      var p := Pair(ts);
      assert current == p[|p| - 1];
      assert chunks == p[..|p| - 1];
    }
  }

  /** A sentence after a full card closes it and opens the next. */
  lemma ChunkFlush(ts: seq<string>, chunks: seq<string>, current: string, count: nat, t: string)
    requires ChunkState(ts, chunks, current, count) && t != "" && count >= 2
    ensures ChunkState(ts + [t], chunks + [current], t, 1)
  {
    PairSnocEven(ts, t);
  }

  /** Closing the open card, if any, gives all cards. */
  lemma ChunkFinish(ts: seq<string>, chunks: seq<string>, current: string, count: nat)
    requires ChunkState(ts, chunks, current, count)
    ensures (if current != "" then chunks + [current] else chunks) == Pair(ts)
  {
  }

  /** The variables of the chunking loop. */
  datatype Chunking = Chunking(chunks: seq<string>, current: string, count: nat)

  /** One turn of the chunking loop on the trimmed sentence `t`: skipped when empty, otherwise
      joined to the open card or, when that card already holds two, opening the next. */
  function ChunkNext(c: Chunking, t: string): Chunking {
    if t == "" then c
    else if c.count < 2 then
      Chunking(c.chunks, c.current + (if c.current != "" then " " else "") + t, c.count + 1)
    else Chunking(c.chunks + [c.current], t, 1)
  }

  /** The loop variables after the trimmed sentences `ts`. */
  function ChunkFold(ts: seq<string>): Chunking {
    if |ts| == 0 then Chunking([], "", 0)
    else ChunkNext(ChunkFold(ts[..|ts| - 1]), ts[|ts| - 1])
  }

  /** One more sentence is one more turn of the loop. */
  lemma ChunkFoldStep(ts: seq<string>, n: nat)
    requires n < |ts|
    ensures ChunkFold(ts[..n + 1]) == ChunkNext(ChunkFold(ts[..n]), ts[n])
  {
    Seqs.PrefixStep(ts, n);
    var p := ts[..n + 1];
    assert |p| - 1 == n && p[..n] == ts[..n] && p[n] == ts[n];
  }

  /** The loop keeps its state in step with the pairing of the non-empty trimmed sentences. */
  lemma {:induction false} ChunkFoldState(ts: seq<string>)
    ensures var c := ChunkFold(ts);
            ChunkState(Seqs.Filter(ts, NonEmpty), c.chunks, c.current, c.count)
    decreases |ts|
  {
    if |ts| > 0 {
      var n := |ts| - 1;
      var c := ChunkFold(ts[..n]);
      var t := ts[n];
      var kept := Seqs.Filter(ts[..n], NonEmpty);
      Seqs.LastSplit(ts);
      ChunkFoldState(ts[..n]);
      FilterNonEmptySnoc(ts[..n], t);
      if t == "" {
        assert kept + [] == kept;
      } else if c.count < 2 {
        ChunkAppend(kept, c.chunks, c.current, c.count, t);
      } else {
        ChunkFlush(kept, c.chunks, c.current, c.count, t);
      }
    }
  }

  /** The chunking loop of the card builder over the trimmed sentences: it produces exactly
      the pairs of the non-empty ones. */
  method ChunkTrimmed(ts: seq<string>) returns (chunks: seq<string>)
    ensures chunks == Pair(Seqs.Filter(ts, NonEmpty))
  {
    chunks := [];
    var current := "";
    var count := 0;
    var n := 0;
    assert ts[..0] == [];
    while n < |ts|
      invariant 0 <= n <= |ts|
      invariant chunks == ChunkFold(ts[..n]).chunks
      invariant current == ChunkFold(ts[..n]).current
      invariant count == ChunkFold(ts[..n]).count
    {
      ChunkFoldStep(ts, n);
      var trimmed := ts[n];
      if trimmed != "" {
        if count < 2 {
          current := current + (if current != "" then " " else "") + trimmed;
          count := count + 1;
        } else {
          chunks := chunks + [current];
          current := trimmed;
          count := 1;
        }
      }
      n := n + 1;
    }
    assert ts[..n] == ts;
    ChunkFoldState(ts);
    ChunkFinish(Seqs.Filter(ts, NonEmpty), chunks, current, count);
    if current != "" {
      chunks := chunks + [current];
    }
  }

  /** The card builder's `forEach` over the sentences: each is trimmed, the empty ones are
      skipped and the rest are paired into cards. */
  method ChunkSentences(sentences: seq<string>) returns (chunks: seq<string>)
    ensures chunks == Pair(Kept(sentences))
  {
    chunks := ChunkTrimmed(Seqs.Map(sentences, Trim));
    KeptIsFilter(sentences);
  }

  /** The card list of the component: the placeholder for empty content, otherwise the
      chunked sentences. */
  method BuildCards(content: string) returns (cards: seq<string>)
    ensures cards == Cards(content)
    ensures content == "" ==> cards == [Placeholder]
    ensures content != "" ==> |cards| == (|Kept(Sentences(content))| + 1) / 2
    ensures content != "" ==> forall i :: 0 <= i < |cards| ==>
              cards[i] == CardAt(Kept(Sentences(content)), i)
  {
    if content == "" {
      return [Placeholder];
    }
    cards := ChunkSentences(Sentences(content));
  }

  /** Non-empty content made only of white space yields no card at all. */
  lemma BlankContentNoCards(content: string)
    requires content != "" && IsBlank(content)
    ensures Cards(content) == []
  {
    assert !HasTerminator(content);
    NoTerminatorOneSentence(content);
    assert Kept([content]) == [];
  }

  /** Content that is only terminators is kept whole, as one card. */
  lemma OnlyTerminatorsOneCard(content: string)
    requires content != ""
    requires forall k :: 0 <= k < |content| ==> IsTerminator(content[k])
    ensures Cards(content) == [content]
  {
    assert Sentences(content) == [content];
    TrimUnpadded(content);
    KeptSingle(content);
    assert Pair([content]) == [content];
  }

  /** One entry of the viewability callback: the index of a visible card, if known. */
  datatype ViewToken = ViewToken(index: Option<nat>)

  /** What the callback does: the card it marks current, and the progress it reports. */
  datatype ViewChange = ViewChange(currentCard: Option<nat>, progress: Option<real>)

  /** `Math.min(1, (index + 1) / cards.length)`. */
  function CardProgress(index: nat, cardCount: nat): (p: real)
    requires cardCount > 0
    ensures 0.0 < p <= 1.0
    ensures index + 1 >= cardCount ==> p == 1.0
    ensures index + 1 < cardCount ==> p * cardCount as real == (index + 1) as real
  {
    var q := (index + 1) as real / cardCount as real;
    if q < 1.0 then q else 1.0
  }

  /** Progress never goes down as the index goes up. */
  lemma CardProgressMonotone(i: nat, j: nat, cardCount: nat)
    requires cardCount > 0 && i <= j
    ensures CardProgress(i, cardCount) <= CardProgress(j, cardCount)
  {
    var c := cardCount as real;
    assert (i + 1) as real / c <= (j + 1) as real / c by {
      assert (i + 1) as real <= (j + 1) as real;
    }
  }

  /** Scrolling to a later card never reports less progress than an earlier one. */
  lemma LaterCardMoreProgress(i: nat, j: nat, cardCount: nat,
                              before: seq<ViewToken>, after: seq<ViewToken>)
    requires i <= j && cardCount > 0
    ensures var a := OnViewableItemsChanged([ViewToken(Some(i))] + before, cardCount, true);
            var b := OnViewableItemsChanged([ViewToken(Some(j))] + after, cardCount, true);
            a.progress.Some? && b.progress.Some? && a.progress.value <= b.progress.value
  {
    CardProgressMonotone(i, j, cardCount);
  }

  /** `onViewableItemsChanged`: the first visible card with a known index becomes current;
      progress is reported only when a listener exists and there is at least one card. */
  function OnViewableItemsChanged(viewable: seq<ViewToken>, cardCount: nat,
                                  hasListener: bool): (r: ViewChange)
    ensures r.currentCard.Some? <==> |viewable| > 0 && viewable[0].index.Some?
    ensures r.currentCard.Some? ==> r.currentCard == viewable[0].index
    ensures r.progress.Some? <==> r.currentCard.Some? && hasListener && cardCount > 0
    ensures r.progress.Some? ==> 0.0 < r.progress.value <= 1.0
    ensures r.progress.Some? && r.currentCard.value == cardCount - 1 ==> r.progress.value == 1.0
    ensures r.progress.Some? && r.currentCard.value + 1 < cardCount ==>
              r.progress.value * cardCount as real == (r.currentCard.value + 1) as real
  {
    if |viewable| > 0 && viewable[0].index.Some? then
      var index := viewable[0].index.value;
      if hasListener && cardCount > 0 then
        ViewChange(Some(index), Some(CardProgress(index, cardCount)))
      else
        ViewChange(Some(index), None)
    else
      ViewChange(None, None)
  }
}
