/** The string operations of the Rust standard library that the parsers use. */
module Text {
  import opened Wrappers

  /** The Unicode White_Space property. */
  predicate IsWhitespace(c: char) {
    || '\t' <= c <= '\r' || c == ' '
    || c == '\U{0085}' || c == '\U{00A0}' || c == '\U{1680}'
    || '\U{2000}' <= c <= '\U{200A}'
    || c == '\U{2028}' || c == '\U{2029}' || c == '\U{202F}' || c == '\U{205F}' || c == '\U{3000}'
  }

  predicate Blank(s: string) {
    forall i :: 0 <= i < |s| ==> IsWhitespace(s[i])
  }

  /** Length of the longest prefix whose characters are all white space (or all not). */
  function Span(s: string, white: bool): (n: nat)
    ensures n <= |s|
    ensures forall i :: 0 <= i < n ==> IsWhitespace(s[i]) == white
    ensures n < |s| ==> IsWhitespace(s[n]) != white
  {
    if s != [] && IsWhitespace(s[0]) == white then 1 + Span(s[1..], white) else 0
  }

  function TrimStart(s: string): (r: string) {
    s[Span(s, true)..]
  }

  /** Length of `s` without its trailing white space. */
  function TrimmedLength(s: string): (n: nat)
    ensures n <= |s|
    ensures forall i :: n <= i < |s| ==> IsWhitespace(s[i])
    ensures n > 0 ==> !IsWhitespace(s[n - 1])
  {
    if s != [] && IsWhitespace(s[|s| - 1]) then TrimmedLength(s[..|s| - 1]) else |s|
  }

  function Trim(s: string): (r: string) {
    var t := TrimStart(s);
    t[..TrimmedLength(t)]
  }

  lemma TrimBlank(s: string)
    ensures Trim(s) == [] <==> Blank(s)
  {
    var a := Span(s, true);
    if a < |s| {
      assert TrimStart(s)[0] == s[a];
    }
  }

  /** `str::split_whitespace`. */
  function Words(s: string): (words: seq<string>) {
    if s == [] then []
    else if IsWhitespace(s[0]) then Words(s[1..])
    else
      var n := Span(s, false);
      [s[..n]] + Words(s[n..])
  }

  /** A longest stretch of characters that are not white space. */
  predicate IsRun(s: string, i: int, j: int) {
    && 0 <= i < j <= |s|
    && (forall k :: i <= k < j ==> !IsWhitespace(s[k]))
    && (i > 0 ==> IsWhitespace(s[i - 1])) && (j < |s| ==> IsWhitespace(s[j]))
  }

  /** Some run of the text reads like this. */
  ghost predicate HasField(s: string, field: string) {
    exists i, j :: IsRun(s, i, j) && s[i..j] == field
  }

  /** Runs of what follows a place where no run crosses. */
  lemma ShiftedRun(s: string, n: nat, i: int, j: int)
    requires n <= |s| && i >= 0 && (n > 0 && i == 0 ==> IsWhitespace(s[n - 1]) || i == j)
    ensures IsRun(s[n..], i, j) <==> IsRun(s, i + n, j + n)
    ensures IsRun(s[n..], i, j) ==> s[n..][i..j] == s[i + n..j + n]
  {
    var t := s[n..];
    if IsRun(t, i, j) {
      forall k | i + n <= k < j + n ensures !IsWhitespace(s[k]) {
        assert s[k] == t[k - n];
      }
    }
    if IsRun(s, i + n, j + n) {
      forall k | i <= k < j ensures !IsWhitespace(t[k]) {
        assert t[k] == s[k + n];
      }
    }
  }

  lemma RunsAfterSpace(s: string, field: string)
    requires s != [] && IsWhitespace(s[0])
    ensures HasField(s, field) <==> HasField(s[1..], field)
  {
    if i, j :| IsRun(s, i, j) && s[i..j] == field {
      ShiftedRun(s, 1, i - 1, j - 1);
    }
    if i, j :| IsRun(s[1..], i, j) && s[1..][i..j] == field {
      ShiftedRun(s, 1, i, j);
    }
  }

  lemma RunsAfterWord(s: string, n: nat, field: string)
    requires 0 < n <= |s| && (forall k :: 0 <= k < n ==> !IsWhitespace(s[k])) && (n < |s| ==> IsWhitespace(s[n]))
    ensures HasField(s, field) <==> field == s[..n] || HasField(s[n..], field)
  {
    assert IsRun(s, 0, n) && s[0..n] == s[..n];
    if i, j :| IsRun(s, i, j) && s[i..j] == field {
      if i == 0 {
        assert j == n;
      } else {
        assert i > n;
        ShiftedRun(s, n, i - n, j - n);
      }
    }
    if i, j :| IsRun(s[n..], i, j) && s[n..][i..j] == field {
      assert n < |s| && s[n..][0] == s[n];
      assert i > 0;
      ShiftedRun(s, n, i, j);
    }
  }

  /** The words of a text are exactly its runs. */
  lemma {:induction false} WordsAreRuns(s: string, field: string)
    ensures field in Words(s) <==> HasField(s, field)
    decreases |s|
  {
    if s != [] {
      if IsWhitespace(s[0]) {
        RunsAfterSpace(s, field);
        WordsAreRuns(s[1..], field);
      } else {
        var n := Span(s, false);
        RunsAfterWord(s, n, field);
        WordsAreRuns(s[n..], field);
      }
    }
  }

  predicate Occurs(s: string, i: nat, pattern: string) {
    i + |pattern| <= |s| && s[i..i + |pattern|] == pattern
  }

  /** Position of the first occurrence of `pattern`. */
  function Find(s: string, pattern: string): (r: Option<nat>)
    ensures r.Some? ==> Occurs(s, r.value, pattern)
    ensures forall i: nat :: (r.None? || i < r.value) ==> !Occurs(s, i, pattern)
  {
    if |s| < |pattern| then None
    else if s[..|pattern|] == pattern then Some(0)
    else
      var rest := Find(s[1..], pattern);
      assert forall i: nat :: 0 < i && Occurs(s, i, pattern) ==> Occurs(s[1..], i - 1, pattern) by {
        forall i: nat | 0 < i && Occurs(s, i, pattern) ensures Occurs(s[1..], i - 1, pattern) {
          assert s[1..][i - 1..i - 1 + |pattern|] == s[i..i + |pattern|];
        }
      }
      match rest
      case None => None
      case Some(i) => Some(i + 1)
  }

  /** The clauses of `Find` fix its answer. */
  lemma FindIs(s: string, pattern: string, i: nat)
    requires Occurs(s, i, pattern)
    requires forall j: nat :: j < i ==> !Occurs(s, j, pattern)
    ensures Find(s, pattern) == Some(i)
  {
  }

  predicate Contains(s: string, pattern: string) {
    Find(s, pattern).Some?
  }

  /** `str::split_once` with a text separator. */
  function SplitOnce(s: string, separator: string): (r: Option<(string, string)>) {
    match Find(s, separator)
    case None => None
    case Some(i) => Some((s[..i], s[i + |separator|..]))
  }

  /** `str::split`: the pieces between successive occurrences of a separator. */
  function Split(s: string, separator: string): (pieces: seq<string>)
    requires separator != []
    ensures pieces != []
    decreases |s|
  {
    match Find(s, separator)
    case None => [s]
    case Some(i) => [s[..i]] + Split(s[i + |separator|..], separator)
  }

  function WithoutCarriageReturn(s: string): (r: string) {
    if s != [] && s[|s| - 1] == '\r' then s[..|s| - 1] else s
  }

  /** `str::lines`: ends at `\n` or `\r\n`; a final line break opens no further line. */
  function Lines(s: string): (lines: seq<string>)
    decreases |s|
  {
    if s == [] then []
    else
      match Find(s, "\n")
      case None => [s]
      case Some(i) => [WithoutCarriageReturn(s[..i])] + Lines(s[i + 1..])
  }

  function Join(pieces: seq<string>, separator: string): (s: string) {
    if pieces == [] then []
    else if |pieces| == 1 then pieces[0]
    else pieces[0] + separator + Join(pieces[1..], separator)
  }

  // ---- joining lines and taking them apart again ----

  predicate OneLine(s: string) {
    '\n' !in s
  }

  lemma FindBreak(head: string, rest: string)
    requires OneLine(head)
    ensures Find(head + "\n" + rest, "\n") == Some(|head|)
  {
    var s := head + "\n" + rest;
    assert s[|head|..|head| + 1] == "\n";
    forall j: nat | j < |head| ensures !Occurs(s, j, "\n") {
      assert s[j..j + 1][0] == head[j];
    }
    FindIs(s, "\n", |head|);
  }

  lemma NoBreak(s: string)
    requires OneLine(s)
    ensures Find(s, "\n").None?
  {
    forall j: nat ensures !Occurs(s, j, "\n") {
      if j < |s| { assert s[j..j + 1] == [s[j]]; }
    }
  }

  /** The lines as `str::lines` returns them: a carriage return before the break is dropped. */
  function AsRead(lines: seq<string>): (r: seq<string>) {
    if |lines| <= 1 then lines else [WithoutCarriageReturn(lines[0])] + AsRead(lines[1..])
  }

  lemma {:induction false} LinesOfJoin(lines: seq<string>)
    requires lines != [] && forall i :: 0 <= i < |lines| ==> OneLine(lines[i]) && lines[i] != []
    ensures Lines(Join(lines, "\n")) == AsRead(lines)
  {
    var s := Join(lines, "\n");
    if |lines| == 1 {
      NoBreak(s);
    } else {
      var rest := Join(lines[1..], "\n");
      LinesOfJoin(lines[1..]);
      FindBreak(lines[0], rest);
      assert s == lines[0] + "\n" + rest;
      assert s[..|lines[0]|] == lines[0] && s[|lines[0]| + 1..] == rest;
    }
  }
}
