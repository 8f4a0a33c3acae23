/** What the parser returns for an apt listing, said on the characters of its lines. */
module AptText {
  import opened Wrappers
  import opened Text
  import opened Apt
  import opened AptRoundTrip

  // ---- one line ----

  ghost predicate FirstAt(s: string, pattern: string, i: nat) {
    Occurs(s, i, pattern) && forall j: nat :: j < i ==> !Occurs(s, j, pattern)
  }

  ghost predicate SomewhereIn(s: string, pattern: string) {
    exists i: nat :: Occurs(s, i, pattern)
  }

  /** After the run that opens the text and the white space behind it comes the run `w`. */
  ghost predicate SecondWord(s: string, w: string) {
    exists b: nat, c: nat, d: nat :: OpensWith(s, b, c) && IsRun(s, c, d) && s[c..d] == w
  }

  ghost predicate OpensWith(s: string, b: nat, c: nat) {
    IsRun(s, 0, b) && b < c <= |s| && forall k :: b <= k < c ==> IsWhitespace(s[k])
  }

  /** `u` runs from the first marker to the next one or the end, without the closing brackets before that. */
  ghost predicate FromMarker(s: string, u: string) {
    exists m: nat, n: nat, e: nat :: Announces(s, m, n, e, u)
  }

  ghost predicate Announces(s: string, m: nat, n: nat, e: nat, u: string) {
    Marked(s, m, n) && Bracketed(s, m + |MARKER|, e, n) && s[m + |MARKER|..e] == u
  }

  /** The first marker is at `m`, and what it announces ends at `n`. */
  ghost predicate Marked(s: string, m: nat, n: nat) {
    FirstAt(s, MARKER, m) && NextAt(s, MARKER, m + |MARKER|, n)
  }

  /** From `from` on the pattern occurs first at `n`, or not at all and then `n` is the end. */
  ghost predicate NextAt(s: string, pattern: string, from: nat, n: nat) {
    && from <= n <= |s|
    && (n == |s| || Occurs(s, n, pattern))
    && forall k: nat :: from <= k < n ==> !Occurs(s, k, pattern)
  }

  /** From `e` up to `n` there are closing brackets, and none right before `e`. */
  ghost predicate Bracketed(s: string, from: nat, e: nat, n: nat) {
    && from <= e <= n <= |s|
    && (forall k :: e <= k < n ==> s[k] == ']')
    && (e > from ==> s[e - 1] != ']')
  }

  ghost predicate BeforeSlash(s: string, p: string) {
    exists i: nat :: FirstAt(s, "/", i) && s[..i] == p
  }

  /** The line without white space around it is a heading, or has no slash, or no marker. */
  ghost predicate Dropped(raw: string) {
    var line := Trim(raw);
    "Listing" <= line || '/' !in line || !SomewhereIn(line, MARKER)
  }

  ghost predicate Describes(raw: string, e: Entry) {
    var line := Trim(raw);
    && BeforeSlash(line, e.package)
    && SecondWord(line, e.candidate)
    && FromMarker(line, e.installed)
    && (e.security <==> SomewhereIn(line, "security"))
  }

  // ---- the parts of a line are unique ----

  lemma FirstIsUnique(s: string, pattern: string, i: nat, j: nat)
    requires FirstAt(s, pattern, i) && FirstAt(s, pattern, j)
    ensures i == j
  {
  }

  lemma OpeningIsUnique(s: string, b: nat, c: nat, d: nat, b': nat, c': nat, d': nat)
    requires OpensWith(s, b, c) && IsRun(s, c, d) && OpensWith(s, b', c') && IsRun(s, c', d')
    ensures c == c' && d == d'
  {
    assert !IsWhitespace(s[c]) && !IsWhitespace(s[c']);
    assert b == b';
  }

  lemma SecondIsUnique(s: string, w: string, w': string)
    requires SecondWord(s, w) && SecondWord(s, w')
    ensures w == w'
  {
    var b: nat, c: nat, d: nat :| OpensWith(s, b, c) && IsRun(s, c, d) && s[c..d] == w;
    var b': nat, c': nat, d': nat :| OpensWith(s, b', c') && IsRun(s, c', d') && s[c'..d'] == w';
    OpeningIsUnique(s, b, c, d, b', c', d');
  }

  lemma NextIsUnique(s: string, pattern: string, from: nat, n: nat, n': nat)
    requires NextAt(s, pattern, from, n) && NextAt(s, pattern, from, n')
    ensures n == n'
  {
  }

  lemma MarkedIsUnique(s: string, m: nat, n: nat, m': nat, n': nat)
    requires Marked(s, m, n) && Marked(s, m', n')
    ensures m == m' && n == n'
  {
    FirstIsUnique(s, MARKER, m, m');
    NextIsUnique(s, MARKER, m + |MARKER|, n, n');
  }

  lemma BracketedIsUnique(s: string, from: nat, e: nat, e': nat, n: nat)
    requires Bracketed(s, from, e, n) && Bracketed(s, from, e', n)
    ensures e == e'
  {
  }

  lemma MarkerIsUnique(s: string, u: string, u': string)
    requires FromMarker(s, u) && FromMarker(s, u')
    ensures u == u'
  {
    var m: nat, n: nat, e: nat :| Announces(s, m, n, e, u);
    var m': nat, n': nat, e': nat :| Announces(s, m', n', e', u');
    MarkedIsUnique(s, m, n, m', n');
    BracketedIsUnique(s, m + |MARKER|, e, e', n);
  }

  lemma SlashIsUnique(s: string, p: string, p': string)
    requires BeforeSlash(s, p) && BeforeSlash(s, p')
    ensures p == p'
  {
    var i: nat :| FirstAt(s, "/", i) && s[..i] == p;
    var i': nat :| FirstAt(s, "/", i') && s[..i'] == p';
    FirstIsUnique(s, "/", i, i');
  }

  lemma DescriptionIsUnique(raw: string, e: Entry, e': Entry)
    requires Describes(raw, e) && Describes(raw, e')
    ensures e == e'
  {
    var line := Trim(raw);
    SlashIsUnique(line, e.package, e'.package);
    SecondIsUnique(line, e.candidate, e'.candidate);
    MarkerIsUnique(line, e.installed, e'.installed);
  }

  // ---- the printer reads these parts ----

  lemma FindExactly(s: string, pattern: string)
    ensures Contains(s, pattern) <==> SomewhereIn(s, pattern)
    ensures Find(s, pattern).Some? ==> FirstAt(s, pattern, Find(s, pattern).value)
  {
  }

  lemma SlashExactly(s: string)
    ensures Find(s, "/").Some? <==> '/' in s
    ensures Find(s, "/").Some? ==> BeforeSlash(s, s[..Find(s, "/").value])
  {
    FindExactly(s, "/");
    if i :| 0 <= i < |s| && s[i] == '/' {
      assert s[i..i + 1] == "/";
      assert Occurs(s, i, "/");
    }
    if Find(s, "/").Some? {
      var i := Find(s, "/").value;
      assert s[i..i + 1][0] == s[i];
    }
  }

  /** Leading white space adds no word. */
  lemma {:induction false} WordsBehind(s: string)
    ensures Words(s) == Words(TrimStart(s))
  {
    if s != [] && IsWhitespace(s[0]) {
      WordsBehind(s[1..]);
      assert TrimStart(s[1..]) == TrimStart(s);
    } else {
      assert TrimStart(s) == s;
    }
  }

  lemma RunAt(s: string, c: nat)
    requires 0 < c < |s| && IsWhitespace(s[c - 1]) && !IsWhitespace(s[c])
    ensures var d := c + Span(s[c..], false);
            c < d <= |s| && IsRun(s, c, d) && Words(s[c..]) != [] && Words(s[c..])[0] == s[c..d]
  {
    var t := s[c..];
    var l := Span(t, false);
    assert t[0] == s[c];
    assert forall k :: c <= k < c + l ==> s[k] == t[k - c];
    assert c + l < |s| ==> s[c + l] == t[l];
    assert t[..l] == s[c..c + l];
  }

  lemma SpaceBehind(s: string, n: nat)
    requires n < |s| && IsWhitespace(s[n]) && !Blank(s[n..])
    ensures var c := n + Span(s[n..], true);
            && n < c < |s| && (forall k :: n <= k < c ==> IsWhitespace(s[k])) && !IsWhitespace(s[c])
            && TrimStart(s[n..]) == s[c..]
  {
    var t := s[n..];
    var a := Span(t, true);
    assert t[0] == s[n];
    assert forall k :: n <= k < n + a ==> s[k] == t[k - n];
    assert a < |t|;
    assert s[n + a] == t[a];
  }

  lemma SecondFrom(s: string, n: nat)
    requires IsRun(s, 0, n) && n < |s| && !Blank(s[n..])
    ensures Words(s[n..]) != [] && SecondWord(s, Words(s[n..])[0])
  {
    SpaceBehind(s, n);
    var c := n + Span(s[n..], true);
    WordsBehind(s[n..]);
    RunAt(s, c);
    assert OpensWith(s, n, c);
  }

  /** A trimmed text with white space inside has a second word. */
  lemma SecondExactly(s: string, k: nat)
    requires k < |s| && IsWhitespace(s[k]) && !IsWhitespace(s[0]) && !IsWhitespace(s[|s| - 1])
    ensures |Words(s)| >= 2 && SecondWord(s, Words(s)[1])
  {
    var n := Span(s, false);
    assert n < |s| && IsRun(s, 0, n);
    assert !Blank(s[n..]) by { assert s[n..][|s| - n - 1] == s[|s| - 1]; }
    SecondFrom(s, n);
    assert Words(s)[1] == Words(s[n..])[0];
  }

  lemma TrimmedEnds(raw: string)
    requires Trim(raw) != []
    ensures !IsWhitespace(Trim(raw)[0]) && !IsWhitespace(Trim(raw)[|Trim(raw)| - 1])
  {
    var t := TrimStart(raw);
    assert t != [] && t[0] == raw[Span(raw, true)];
  }

  lemma MarkerHasSpace(s: string, m: nat)
    requires Occurs(s, m, MARKER)
    ensures m + 11 < |s| && s[m + 11] == ' ' && IsWhitespace(s[m + 11])
  {
    assert s[m + 11] == s[m..m + |MARKER|][11] == MARKER[11];
  }

  lemma {:induction false} WithoutTrailingIs(s: string)
    ensures Bracketed(s, 0, |WithoutTrailing(s, ']')|, |s|)
  {
    if s != [] && s[|s| - 1] == ']' {
      var shorter := s[..|s| - 1];
      WithoutTrailingIs(shorter);
      var e := |WithoutTrailing(shorter, ']')|;
      assert forall k :: e <= k < |shorter| ==> s[k] == shorter[k];
    }
  }

  lemma BracketedShifts(s: string, from: nat, n: nat, e: nat)
    requires from <= n <= |s| && Bracketed(s[from..n], 0, e, n - from)
    ensures Bracketed(s, from, from + e, n) && s[from..n][..e] == s[from..from + e]
  {
    var t := s[from..n];
    assert forall k :: from <= k < n ==> s[k] == t[k - from];
  }

  lemma FirstPiece(s: string, pattern: string)
    requires pattern != []
    ensures Split(s, pattern)[0] == if Find(s, pattern).Some? then s[..Find(s, pattern).value] else s
  {
  }

  lemma SplitStep(s: string, pattern: string, i: nat)
    requires pattern != [] && i + |pattern| <= |s| && Find(s, pattern) == Some(i)
    ensures Split(s, pattern) == [s[..i]] + Split(s[i + |pattern|..], pattern)
  {
  }

  lemma SecondOf(first: string, rest: seq<string>)
    requires rest != []
    ensures ([first] + rest)[1] == rest[0]
  {
  }

  lemma OccursBehind(s: string, from: nat, k: nat, pattern: string)
    requires from <= k && from <= |s|
    ensures Occurs(s, k, pattern) <==> Occurs(s[from..], k - from, pattern)
  {
    if k + |pattern| <= |s| {
      assert s[from..][k - from..k - from + |pattern|] == s[k..k + |pattern|];
    }
  }

  lemma FindBehind(s: string, pattern: string, from: nat) returns (n: nat)
    requires from <= |s|
    ensures NextAt(s, pattern, from, n)
    ensures s[from..n] ==
              if Find(s[from..], pattern).Some? then s[from..][..Find(s[from..], pattern).value] else s[from..]
  {
    var next := Find(s[from..], pattern);
    n := if next.Some? then from + next.value else |s|;
    forall k: nat | from <= k < n ensures !Occurs(s, k, pattern) {
      OccursBehind(s, from, k, pattern);
    }
    if next.Some? {
      OccursBehind(s, from, n, pattern);
    }
  }

  lemma PieceIsMarked(s: string) returns (m: nat, n: nat)
    requires Find(s, MARKER).Some?
    ensures Marked(s, m, n) && |Split(s, MARKER)| >= 2 && Split(s, MARKER)[1] == s[m + |MARKER|..n]
  {
    m := Find(s, MARKER).value;
    var from := m + |MARKER|;
    SplitStep(s, MARKER, m);
    SecondOf(s[..m], Split(s[from..], MARKER));
    FirstPiece(s[from..], MARKER);
    n := FindBehind(s, MARKER, from);
  }

  lemma PieceWithoutBrackets(s: string, from: nat, n: nat, u: string)
    requires from <= n <= |s| && u == WithoutTrailing(s[from..n], ']')
    ensures Bracketed(s, from, from + |u|, n) && s[from..from + |u|] == u
  {
    WithoutTrailingIs(s[from..n]);
    BracketedShifts(s, from, n, |u|);
  }

  lemma AnnouncedPiece(s: string, m: nat, n: nat, piece: string)
    requires Marked(s, m, n) && piece == s[m + |MARKER|..n]
    ensures FromMarker(s, WithoutTrailing(piece, ']'))
  {
    var u := WithoutTrailing(piece, ']');
    PieceWithoutBrackets(s, m + |MARKER|, n, u);
    AnnouncedFrom(s, m, n, m + |MARKER|, u);
  }

  lemma InstalledExactly(s: string)
    requires Find(s, MARKER).Some?
    ensures |Split(s, MARKER)| >= 2 && FromMarker(s, WithoutTrailing(Split(s, MARKER)[1], ']'))
  {
    var m, n := PieceIsMarked(s);
    AnnouncedPiece(s, m, n, Split(s, MARKER)[1]);
  }

  lemma AnnouncedFrom(s: string, m: nat, n: nat, from: nat, u: string)
    requires Marked(s, m, n) && from == m + |MARKER| && Bracketed(s, from, from + |u|, n)
    requires s[from..from + |u|] == u
    ensures FromMarker(s, u)
  {
    assert Announces(s, m, n, from + |u|, u);
  }

  lemma NoMarkerNoPiece(s: string)
    requires Find(s, MARKER).None?
    ensures |Split(s, MARKER)| < 2
  {
  }

  lemma ReadsParts(raw: string, line: string)
    requires line == Trim(raw) && line != [] && !("Listing" <= line) && Find(line, "/").Some?
    requires |Words(line)| >= 2 && |Split(line, MARKER)| >= 2
    ensures ReadLine(raw) == Some(Entry(line[..Find(line, "/").value], WithoutTrailing(Split(line, MARKER)[1], ']'),
                                        Words(line)[1], Contains(line, "security")))
  {
  }

  lemma PartsAre(line: string)
    requires line != [] && !IsWhitespace(line[0]) && !IsWhitespace(line[|line| - 1])
    requires '/' in line && SomewhereIn(line, MARKER)
    ensures Find(line, "/").Some? && BeforeSlash(line, line[..Find(line, "/").value])
    ensures |Words(line)| >= 2 && SecondWord(line, Words(line)[1])
    ensures |Split(line, MARKER)| >= 2 && FromMarker(line, WithoutTrailing(Split(line, MARKER)[1], ']'))
  {
    SlashExactly(line);
    FindExactly(line, MARKER);
    var m := Find(line, MARKER).value;
    MarkerHasSpace(line, m);
    SecondExactly(line, m + 11);
    InstalledExactly(line);
  }

  lemma KeptLine(raw: string)
    requires !Dropped(raw)
    ensures ReadLine(raw).Some? && Describes(raw, ReadLine(raw).value)
  {
    var line := Trim(raw);
    TrimmedEnds(raw);
    PartsAre(line);
    FindExactly(line, "security");
    ReadsParts(raw, line);
  }

  lemma DroppedLine(raw: string)
    requires Dropped(raw)
    ensures ReadLine(raw).None?
  {
    var line := Trim(raw);
    SlashExactly(line);
    FindExactly(line, MARKER);
    if Find(line, MARKER).None? {
      NoMarkerNoPiece(line);
    }
  }

  /** A line is dropped exactly as said above; otherwise the entry read from it is the one that describes it. */
  lemma ReadLineExactly(raw: string, e: Entry)
    ensures ReadLine(raw).None? <==> Dropped(raw)
    ensures ReadLine(raw) == Some(e) <==> !Dropped(raw) && Describes(raw, e)
  {
    if Dropped(raw) {
      DroppedLine(raw);
    } else {
      KeptLine(raw);
      if Describes(raw, e) {
        DescriptionIsUnique(raw, e, ReadLine(raw).value);
      }
    }
  }

  // ---- the whole listing ----

  ghost function KeptLines(lines: seq<string>): (kept: seq<string>) {
    if lines == [] then []
    else if Dropped(lines[0]) then KeptLines(lines[1..])
    else [lines[0]] + KeptLines(lines[1..])
  }

  ghost predicate Pairwise(kept: seq<string>, entries: seq<Entry>) {
    |kept| == |entries| && forall i :: 0 <= i < |kept| ==> Describes(kept[i], entries[i])
  }

  lemma PairwiseGrows(raw: string, e: Entry, kept: seq<string>, entries: seq<Entry>)
    requires Describes(raw, e) && Pairwise(kept, entries)
    ensures Pairwise([raw] + kept, [e] + entries)
  {
  }

  lemma PairwiseShrinks(kept: seq<string>, entries: seq<Entry>)
    requires Pairwise(kept, entries) && kept != []
    ensures Describes(kept[0], entries[0]) && Pairwise(kept[1..], entries[1..])
  {
  }

  lemma EntriesStep(lines: seq<string>)
    requires lines != []
    ensures Entries(lines) ==
              match ReadLine(lines[0])
              case None => Entries(lines[1..])
              case Some(e) => [e] + Entries(lines[1..])
  {
  }

  lemma {:induction false} EntriesDescribe(lines: seq<string>)
    ensures Pairwise(KeptLines(lines), Entries(lines))
  {
    if lines != [] {
      EntriesDescribe(lines[1..]);
      EntriesStep(lines);
      if Dropped(lines[0]) {
        DroppedLine(lines[0]);
      } else {
        KeptLine(lines[0]);
        PairwiseGrows(lines[0], ReadLine(lines[0]).value, KeptLines(lines[1..]), Entries(lines[1..]));
      }
    }
  }

  /** The record of a line: its parts without white space around them, and no hold or missing signature. */
  ghost predicate Reports(raw: string, record: PackageRecord) {
    exists e ::
      && Describes(raw, e)
      && record.package == Trim(e.package) && record.installed == Trim(e.installed)
      && record.candidate == Some(e.candidate)
      && record.classification == (if SomewhereIn(Trim(raw), "security") then Security else Normal)
      && !record.held && record.authenticated
  }

  ghost predicate PackageMissing(raw: string) {
    exists e :: Describes(raw, e) && Blank(e.package)
  }

  ghost predicate InstalledMissing(raw: string) {
    exists e :: Describes(raw, e) && Blank(e.installed)
  }

  lemma MissingExactly(raw: string, e: Entry)
    requires Describes(raw, e)
    ensures PackageMissing(raw) <==> Blank(e.package)
    ensures InstalledMissing(raw) <==> Blank(e.installed)
  {
    if e' :| Describes(raw, e') && Blank(e'.package) {
      DescriptionIsUnique(raw, e, e');
    }
    if e' :| Describes(raw, e') && Blank(e'.installed) {
      DescriptionIsUnique(raw, e, e');
    }
  }

  /** One record for each kept line, in order, up to the first line with a missing part. */
  ghost predicate Answers(kept: seq<string>, r: Result<seq<PackageRecord>, ParseError>) {
    if kept == [] then r == Ok([])
    else if PackageMissing(kept[0]) then r == Err(MissingField("Package"))
    else if InstalledMissing(kept[0]) then r == Err(MissingField("Installed"))
    else if r.Err? then Answers(kept[1..], r)
    else r.value != [] && Reports(kept[0], r.value[0]) && Answers(kept[1..], Ok(r.value[1..]))
  }

  lemma RecordReports(raw: string, e: Entry)
    requires Describes(raw, e)
    ensures Reports(raw, RecordOf(e))
  {
  }

  lemma AnswersGrow(kept: seq<string>, record: PackageRecord, rest: Result<seq<PackageRecord>, ParseError>)
    requires kept != [] && !PackageMissing(kept[0]) && !InstalledMissing(kept[0]) && Reports(kept[0], record)
    requires Answers(kept[1..], rest)
    ensures Answers(kept, Prepend([record], rest))
  {
    if rest.Ok? {
      assert ([record] + rest.value)[1..] == rest.value;
    }
  }

  lemma {:induction false} ExpectedAnswers(kept: seq<string>, entries: seq<Entry>)
    requires Pairwise(kept, entries)
    ensures Answers(kept, Expected(entries))
  {
    if kept != [] {
      PairwiseShrinks(kept, entries);
      MissingExactly(kept[0], entries[0]);
      if Complete(entries[0]) {
        RecordReports(kept[0], entries[0]);
        ExpectedAnswers(kept[1..], entries[1..]);
        AnswersGrow(kept, RecordOf(entries[0]), Expected(entries[1..]));
      }
    }
  }

  /** The parser answers a printed listing with the records of its kept lines, or with the first missing part. */
  lemma ListingExactly(output: string)
    ensures Answers(KeptLines(Lines(output)), Parsed(NormalizeAptList(output)))
  {
    RoundTrip(output);
    EntriesDescribe(Lines(output));
    ExpectedAnswers(KeptLines(Lines(output)), Entries(Lines(output)));
  }

  ghost predicate Whole(raw: string) {
    !PackageMissing(raw) && !InstalledMissing(raw)
  }

  ghost predicate AllWhole(kept: seq<string>) {
    forall i :: 0 <= i < |kept| ==> Whole(kept[i])
  }

  ghost predicate AllReported(kept: seq<string>, records: seq<PackageRecord>) {
    |records| == |kept| && forall i :: 0 <= i < |kept| ==> Reports(kept[i], records[i])
  }

  lemma WholeShrinks(kept: seq<string>)
    requires kept != []
    ensures AllWhole(kept) <==> Whole(kept[0]) && AllWhole(kept[1..])
  {
    assert forall i :: 0 < i < |kept| ==> kept[i] == kept[1..][i - 1];
  }

  lemma ReportedGrows(kept: seq<string>, records: seq<PackageRecord>)
    requires kept != [] && records != [] && Reports(kept[0], records[0]) && AllReported(kept[1..], records[1..])
    ensures AllReported(kept, records)
  {
    forall i | 0 <= i < |kept| ensures Reports(kept[i], records[i]) {
      if i > 0 {
        assert Reports(kept[1..][i - 1], records[1..][i - 1]);
      }
    }
  }

  lemma {:induction false} AnswersExactly(kept: seq<string>, r: Result<seq<PackageRecord>, ParseError>)
    requires Answers(kept, r)
    ensures r.Ok? <==> AllWhole(kept)
    ensures r.Ok? ==> AllReported(kept, r.value)
  {
    if kept != [] {
      WholeShrinks(kept);
      if Whole(kept[0]) {
        AnswersExactly(kept[1..], if r.Ok? then Ok(r.value[1..]) else r);
        if r.Ok? {
          ReportedGrows(kept, r.value);
        }
      }
    }
  }

  /** It succeeds exactly if no kept line lacks a package or an installed version, with one record for each. */
  lemma ListingSucceedsExactly(output: string)
    ensures var kept, r := KeptLines(Lines(output)), Parsed(NormalizeAptList(output));
            && (r.Ok? <==> AllWhole(kept))
            && (r.Ok? ==> AllReported(kept, r.value))
  {
    ListingExactly(output);
    AnswersExactly(KeptLines(Lines(output)), Parsed(NormalizeAptList(output)));
  }

  /** A single line that is kept and whole comes back as its one record. */
  lemma OneLineListing(line: string)
    requires OneLine(line) && !Dropped(line) && Whole(line)
    ensures var r := Parsed(NormalizeAptList(line));
            r.Ok? && |r.value| == 1 && Reports(line, r.value[0])
  {
    NoBreak(line);
    assert line != [] by { assert Trim([]) == []; }
    assert Lines(line) == [line] && [line][1..] == [];
    assert KeptLines([line]) == [line];
    ListingSucceedsExactly(line);
    assert AllWhole([line]);
  }
}
