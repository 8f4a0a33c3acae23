/** Reading Ansible's PLAY RECAP and deciding a reconciliation from it. */
module Recap {
  import opened Wrappers
  import opened Text
  import opened Numbers

  const HEADER := "PLAY RECAP"

  function StripPrefix(s: string, prefix: string): (r: Option<string>) {
    if prefix <= s then Some(s[|prefix|..]) else None
  }

  /** `skip_while`: the lines from the first one that mentions the recap header. */
  function FromHeader(lines: seq<string>): (rest: seq<string>)
    ensures rest != [] ==> Contains(rest[0], HEADER)
  {
    if lines == [] || Contains(lines[0], HEADER) then lines else FromHeader(lines[1..])
  }

  function AfterHeader(lines: seq<string>): (rest: seq<string>) {
    var recap := FromHeader(lines);
    if recap == [] then [] else recap[1..]
  }

  predicate ReportsFailure(field: string) {
    || (StripPrefix(field, "failed=").Some? && StripPrefix(field, "failed=").value != "0")
    || (StripPrefix(field, "unreachable=").Some? && StripPrefix(field, "unreachable=").value != "0")
  }

  predicate ReportsSkip(field: string) {
    match StripPrefix(field, "skipped=")
    case None => false
    case Some(value) => ParseU32(value).Some? && ParseU32(value).value > 0
  }

  function ChangedCount(field: string): (r: Option<nat>) {
    match StripPrefix(field, "changed=")
    case None => None
    case Some(value) => ParseU32(value)
  }

  predicate SomeField(line: string, bad: string -> bool) {
    exists field :: field in Words(line) && bad(field)
  }

  predicate SomeLineHas(lines: seq<string>, bad: string -> bool) {
    exists i :: 0 <= i < |lines| && SomeField(lines[i], bad)
  }

  predicate HasFailures(stdout: string) {
    SomeLineHas(AfterHeader(Lines(stdout)), ReportsFailure)
  }

  predicate HasSkippedTasks(stdout: string) {
    SomeLineHas(AfterHeader(Lines(stdout)), ReportsSkip)
  }

  predicate AnnouncesSkip(line: string) {
    "skipping:" <= TrimStart(line)
  }

  function Flatten(lines: seq<string>): (fields: seq<string>) {
    if lines == [] then [] else Words(lines[0]) + Flatten(lines[1..])
  }

  function Counts(fields: seq<string>): (counts: seq<nat>) {
    if fields == [] then [] else Listed(ChangedCount(fields[0])) + Counts(fields[1..])
  }

  function Listed(count: Option<nat>): (counts: seq<nat>) {
    match count
    case None => []
    case Some(n) => [n]
  }

  function Sum(counts: seq<nat>): (n: nat) {
    if counts == [] then 0 else counts[0] + Sum(counts[1..])
  }

  /** All readable `changed=` fields; unlike the other readers this starts on the header line. */
  function ChangedCounts(stdout: string): (counts: seq<nat>) {
    Counts(Flatten(FromHeader(Lines(stdout))))
  }

  /** The release build adds `u32` values modulo 2^32. */
  function ChangeCount(stdout: string): (r: Option<nat>) {
    var counts := ChangedCounts(stdout);
    if counts == [] then None else Some(Sum(counts) % U32_LIMIT)
  }

  datatype Decision = Completed | ChangesRemain | ManualReview

  function Decide(stdout: string): (d: Decision) {
    var lines := Lines(stdout);
    if !Contains(stdout, HEADER) || HasFailures(stdout) || HasSkippedTasks(stdout)
       || exists i :: 0 <= i < |lines| && AnnouncesSkip(lines[i])
    then ManualReview
    else
      match ChangeCount(stdout)
      case None => ManualReview
      case Some(n) => if n == 0 then Completed else ChangesRemain
  }

  // ---- what a decision means, stated on the positions of the text's lines ----

  /** Index of the first line that mentions the recap header, or the number of lines. */
  ghost function HeaderIndex(lines: seq<string>): (h: nat)
    ensures h <= |lines|
    ensures h < |lines| ==> Contains(lines[h], HEADER)
    ensures forall i :: 0 <= i < h ==> !Contains(lines[i], HEADER)
  {
    if lines == [] || Contains(lines[0], HEADER) then 0 else 1 + HeaderIndex(lines[1..])
  }

  ghost predicate NoFieldAfter(lines: seq<string>, h: nat, bad: string -> bool) {
    forall i :: h < i < |lines| ==> !SomeField(lines[i], bad)
  }

  /** A failure or connection count that is spelled in any way but "0". */
  ghost predicate FailedField(field: string) {
    ("failed=" <= field && field != "failed=0") || ("unreachable=" <= field && field != "unreachable=0")
  }

  /** A readable skip count with some digit that is not a zero. */
  ghost predicate SkippedField(field: string) {
    "skipped=" <= field && IsNumber(field[8..]) && !AllZeros(WithoutPlus(field[8..]))
  }

  ghost predicate ChangedField(field: string, n: nat) {
    "changed=" <= field && IsNumber(field[8..]) && PlaceValue(WithoutPlus(field[8..])) == n
  }

  /** Nothing but white space stands before the announcement. */
  ghost predicate SkipAnnounced(line: string) {
    exists k: nat :: Occurs(line, k, "skipping:") && forall i :: 0 <= i < k ==> IsWhitespace(line[i])
  }

  ghost predicate CountIn(line: string, n: nat) {
    exists field :: HasField(line, field) && ChangedField(field, n)
  }

  ghost predicate Flagged(line: string) {
    exists field :: HasField(line, field) && (FailedField(field) || SkippedField(field))
  }

  /** Some field at or after the header reads as a change count of `n`. */
  ghost predicate CountAt(lines: seq<string>, h: nat, n: nat) {
    exists i :: h <= i < |lines| && CountIn(lines[i], n)
  }

  /** There is a recap, nothing after its header failed or was skipped, and no task announced a skip. */
  ghost predicate Undisturbed(lines: seq<string>) {
    && HeaderIndex(lines) < |lines|
    && (forall i :: HeaderIndex(lines) < i < |lines| ==> !Flagged(lines[i]))
    && forall i :: 0 <= i < |lines| ==> !SkipAnnounced(lines[i])
  }

  // ---- the readers recognise exactly these fields ----

  lemma FailureExactly(field: string)
    ensures ReportsFailure(field) <==> FailedField(field)
  {
    if "failed=" <= field {
      assert field == "failed=" + field[7..];
    }
    if "unreachable=" <= field {
      assert field == "unreachable=" + field[12..];
    }
  }

  lemma SkipExactly(field: string)
    ensures ReportsSkip(field) <==> SkippedField(field)
  {
    if "skipped=" <= field {
      ParseExactly(field[8..], 0);
      if IsNumber(field[8..]) {
        ZeroExactly(field[8..]);
      }
    }
  }

  lemma ChangeExactly(field: string, n: nat)
    ensures ChangedCount(field) == Some(n) <==> ChangedField(field, n)
  {
    if "changed=" <= field {
      ParseExactly(field[8..], n);
    }
  }

  lemma AnnouncementExactly(line: string)
    ensures AnnouncesSkip(line) <==> SkipAnnounced(line)
  {
    var n := Span(line, true);
    if AnnouncesSkip(line) {
      assert line[n..n + 9] == TrimStart(line)[..9];
      assert Occurs(line, n, "skipping:");
    }
    if k: nat :| Occurs(line, k, "skipping:") && forall i :: 0 <= i < k ==> IsWhitespace(line[i]) {
      assert line[k] == line[k..k + 9][0] == 's';
      assert n == k;
      assert TrimStart(line)[..9] == line[k..k + 9];
    }
  }

  lemma FlaggedExactly(line: string)
    ensures SomeField(line, ReportsFailure) || SomeField(line, ReportsSkip) <==> Flagged(line)
  {
    forall field ensures field in Words(line) <==> HasField(line, field) {
      WordsAreRuns(line, field);
    }
    forall field: string
      ensures ReportsFailure(field) <==> FailedField(field)
      ensures ReportsSkip(field) <==> SkippedField(field)
    {
      FailureExactly(field);
      SkipExactly(field);
    }
  }

  lemma NothingFlagged(lines: seq<string>, h: nat)
    requires h < |lines|
    ensures NoFieldAfter(lines, h, ReportsFailure) && NoFieldAfter(lines, h, ReportsSkip) <==>
            forall i :: h < i < |lines| ==> !Flagged(lines[i])
  {
    forall i | h < i < |lines|
      ensures SomeField(lines[i], ReportsFailure) || SomeField(lines[i], ReportsSkip) <==> Flagged(lines[i])
    {
      FlaggedExactly(lines[i]);
    }
  }

  lemma {:induction false} FromHeaderIs(lines: seq<string>)
    ensures FromHeader(lines) == lines[HeaderIndex(lines)..]
  {
    if lines != [] && !Contains(lines[0], HEADER) {
      FromHeaderIs(lines[1..]);
    }
  }

  lemma FieldsInTail(lines: seq<string>, h: nat, bad: string -> bool)
    requires h < |lines|
    ensures SomeLineHas(lines[h + 1..], bad) <==> !NoFieldAfter(lines, h, bad)
  {
    var tail := lines[h + 1..];
    if k :| 0 <= k < |tail| && SomeField(tail[k], bad) {
      assert tail[k] == lines[h + 1 + k];
    }
    if i :| h < i < |lines| && SomeField(lines[i], bad) {
      assert lines[i] == tail[i - h - 1];
    }
  }

  lemma AfterHeaderIs(lines: seq<string>)
    requires HeaderIndex(lines) < |lines|
    ensures AfterHeader(lines) == lines[HeaderIndex(lines) + 1..]
  {
    FromHeaderIs(lines);
  }

  lemma OccursInWindow(s: string, from: nat, to: nat, j: nat, pattern: string)
    requires from <= to <= |s|
    ensures Occurs(s[from..to], j, pattern) <==> from + j + |pattern| <= to && Occurs(s, from + j, pattern)
  {
    if from + j + |pattern| <= to {
      var left, right := s[from..to][j..j + |pattern|], s[from + j..from + j + |pattern|];
      assert forall k :: 0 <= k < |pattern| ==> left[k] == s[from + j + k] && right[k] == s[from + j + k];
      assert left == right;
    }
  }

  lemma OccurrenceCovers(s: string, j: nat, pattern: string, i: nat)
    requires Occurs(s, j, pattern) && j <= i < j + |pattern|
    ensures s[i] in pattern
  {
    assert s[i] == s[j..j + |pattern|][i - j];
  }

  /** Cutting at a character that the pattern does not use loses no occurrence. */
  lemma ContainsSplits(s: string, pattern: string, i: nat)
    requires pattern != [] && i < |s| && s[i] !in pattern
    ensures Contains(s, pattern) <==> Contains(s[..i], pattern) || Contains(s[i + 1..], pattern)
  {
    if Contains(s[..i], pattern) {
      OccursInWindow(s, 0, i, Find(s[..i], pattern).value, pattern);
    }
    if Contains(s[i + 1..], pattern) {
      OccursInWindow(s, i + 1, |s|, Find(s[i + 1..], pattern).value, pattern);
    }
    if Contains(s, pattern) {
      var j := Find(s, pattern).value;
      if j <= i < j + |pattern| {
        OccurrenceCovers(s, j, pattern, i);
      } else if j > i {
        OccursInWindow(s, i + 1, |s|, j - i - 1, pattern);
        assert s[i + 1..|s|] == s[i + 1..];
      } else {
        OccursInWindow(s, 0, i, j, pattern);
      }
    }
  }

  ghost predicate InSomeLine(lines: seq<string>, pattern: string) {
    exists i :: 0 <= i < |lines| && Contains(lines[i], pattern)
  }

  lemma InFirstOrLater(lines: seq<string>, pattern: string)
    requires lines != []
    ensures InSomeLine(lines, pattern) <==> Contains(lines[0], pattern) || InSomeLine(lines[1..], pattern)
  {
    if i :| 0 <= i < |lines[1..]| && Contains(lines[1..][i], pattern) {
      assert lines[1..][i] == lines[i + 1];
    }
    if i :| 0 < i < |lines| && Contains(lines[i], pattern) {
      assert lines[1..][i - 1] == lines[i];
    }
  }

  lemma CarriageReturnHidesNothing(line: string, pattern: string)
    requires pattern != [] && '\r' !in pattern
    ensures Contains(WithoutCarriageReturn(line), pattern) <==> Contains(line, pattern)
  {
    if line != [] && line[|line| - 1] == '\r' {
      ContainsSplits(line, pattern, |line| - 1);
      assert line[|line|..] == [];
    }
  }

  lemma BreakAt(s: string, i: nat)
    requires Occurs(s, i, "\n")
    ensures i < |s| && s[i] == '\n'
  {
    assert s[i] == s[i..i + 1][0];
  }

  lemma FirstLine(s: string, i: nat)
    requires i < |s| && Find(s, "\n") == Some(i)
    ensures Lines(s) == [WithoutCarriageReturn(s[..i])] + Lines(s[i + 1..])
  {
  }

  /** A pattern without line breaks occurs in a text exactly when it occurs in one of its lines. */
  lemma {:induction false} OccursInSomeLine(s: string, pattern: string)
    requires pattern != [] && '\n' !in pattern && '\r' !in pattern
    ensures Contains(s, pattern) <==> InSomeLine(Lines(s), pattern)
    decreases |s|
  {
    if s != [] {
      match Find(s, "\n")
      case None => assert Lines(s) == [s] && [s][0] == s;
      case Some(i) =>
        BreakAt(s, i);
        FirstLine(s, i);
        ContainsSplits(s, pattern, i);
        CarriageReturnHidesNothing(s[..i], pattern);
        InFirstOrLater(Lines(s), pattern);
        OccursInSomeLine(s[i + 1..], pattern);
        assert Lines(s)[1..] == Lines(s[i + 1..]);
    }
  }

  lemma {:induction false} CountsOfFields(fields: seq<string>, n: nat)
    ensures n in Counts(fields) <==> exists field :: field in fields && ChangedField(field, n)
  {
    if fields != [] {
      ChangeExactly(fields[0], n);
      CountsOfFields(fields[1..], n);
      assert forall f :: f in fields <==> f == fields[0] || f in fields[1..];
    }
  }

  lemma CountsOfLine(line: string, n: nat)
    ensures n in Counts(Words(line)) <==> CountIn(line, n)
  {
    CountsOfFields(Words(line), n);
    forall field ensures field in Words(line) <==> HasField(line, field) {
      WordsAreRuns(line, field);
    }
  }

  lemma {:induction false} CountsAppend(a: seq<string>, b: seq<string>)
    ensures Counts(a + b) == Counts(a) + Counts(b)
  {
    if a == [] {
      assert a + b == b;
    } else {
      CountsAppend(a[1..], b);
      assert (a + b)[1..] == a[1..] + b;
      CountsAssociate(Listed(ChangedCount(a[0])), Counts(a[1..]), Counts(b));
    }
  }

  lemma CountsAssociate(a: seq<nat>, b: seq<nat>, c: seq<nat>)
    ensures a + (b + c) == (a + b) + c
  {
  }

  lemma {:induction false} CountsOfLines(lines: seq<string>, h: nat, n: nat)
    requires h <= |lines|
    ensures n in Counts(Flatten(lines[h..])) <==> CountAt(lines, h, n)
    decreases |lines| - h
  {
    if h < |lines| {
      var rest := Flatten(lines[h + 1..]);
      assert lines[h..][0] == lines[h] && lines[h..][1..] == lines[h + 1..];
      CountsAppend(Words(lines[h]), rest);
      CountsOfLine(lines[h], n);
      CountsOfLines(lines, h + 1, n);
    }
  }

  lemma CountsAre(stdout: string, n: nat)
    ensures n in ChangedCounts(stdout) <==> CountAt(Lines(stdout), HeaderIndex(Lines(stdout)), n)
  {
    FromHeaderIs(Lines(stdout));
    CountsOfLines(Lines(stdout), HeaderIndex(Lines(stdout)), n);
  }

  lemma {:induction false} SumIsZero(counts: seq<nat>)
    ensures Sum(counts) == 0 <==> forall i :: 0 <= i < |counts| ==> counts[i] == 0
  {
    if counts != [] {
      SumIsZero(counts[1..]);
      assert forall i :: 0 < i < |counts| ==> counts[i] == counts[1..][i - 1];
    }
  }

  lemma FieldGuards(stdout: string, lines: seq<string>)
    requires lines == Lines(stdout) && HeaderIndex(lines) < |lines|
    ensures !HasFailures(stdout) && !HasSkippedTasks(stdout) <==>
            forall i :: HeaderIndex(lines) < i < |lines| ==> !Flagged(lines[i])
  {
    AfterHeaderIs(lines);
    FieldsInTail(lines, HeaderIndex(lines), ReportsFailure);
    FieldsInTail(lines, HeaderIndex(lines), ReportsSkip);
    NothingFlagged(lines, HeaderIndex(lines));
  }

  lemma AnnouncementGuard(lines: seq<string>)
    ensures (exists i :: 0 <= i < |lines| && AnnouncesSkip(lines[i])) <==>
            !forall i :: 0 <= i < |lines| ==> !SkipAnnounced(lines[i])
  {
    forall i | 0 <= i < |lines| ensures AnnouncesSkip(lines[i]) <==> SkipAnnounced(lines[i]) {
      AnnouncementExactly(lines[i]);
    }
  }

  lemma HeaderGuard(stdout: string)
    ensures Contains(stdout, HEADER) <==> HeaderIndex(Lines(stdout)) < |Lines(stdout)|
  {
    OccursInSomeLine(stdout, HEADER);
  }

  /** The guards of the decision, read off the lines. */
  lemma GuardsRead(stdout: string)
    ensures Undisturbed(Lines(stdout)) <==>
              && Contains(stdout, HEADER)
              && !HasFailures(stdout)
              && !HasSkippedTasks(stdout)
              && !exists i :: 0 <= i < |Lines(stdout)| && AnnouncesSkip(Lines(stdout)[i])
  {
    HeaderGuard(stdout);
    AnnouncementGuard(Lines(stdout));
    if HeaderIndex(Lines(stdout)) < |Lines(stdout)| {
      FieldGuards(stdout, Lines(stdout));
    }
  }

  /** Some count is readable from line `h` on. */
  ghost predicate SomeCount(lines: seq<string>, h: nat) {
    exists n: nat :: CountAt(lines, h, n)
  }

  lemma SomeCountExactly(stdout: string)
    ensures ChangedCounts(stdout) != [] <==> SomeCount(Lines(stdout), HeaderIndex(Lines(stdout)))
  {
    var counts := ChangedCounts(stdout);
    if counts != [] {
      CountsAre(stdout, counts[0]);
    }
    if n: nat :| CountAt(Lines(stdout), HeaderIndex(Lines(stdout)), n) {
      CountsAre(stdout, n);
    }
  }

  lemma DisturbedIsManual(stdout: string)
    requires !Undisturbed(Lines(stdout))
    ensures Decide(stdout) == ManualReview
  {
    GuardsRead(stdout);
  }

  lemma UndisturbedCounts(stdout: string)
    requires Undisturbed(Lines(stdout))
    ensures Decide(stdout) ==
              if ChangedCounts(stdout) == [] then ManualReview
              else if Sum(ChangedCounts(stdout)) % U32_LIMIT == 0 then Completed
              else ChangesRemain
  {
    GuardsRead(stdout);
  }

  /** Reconciliation reports completion exactly on undisturbed recaps whose counts add up to zero modulo 2^32. */
  lemma CompletedExactly(stdout: string)
    ensures Decide(stdout) == Completed <==>
              && Undisturbed(Lines(stdout))
              && ChangedCounts(stdout) != []
              && Sum(ChangedCounts(stdout)) % U32_LIMIT == 0
  {
    GuardsRead(stdout);
  }

  /** Changes remain exactly on undisturbed recaps whose counts add up to anything else. */
  lemma ChangesRemainExactly(stdout: string)
    ensures Decide(stdout) == ChangesRemain <==>
              && Undisturbed(Lines(stdout))
              && Sum(ChangedCounts(stdout)) % U32_LIMIT != 0
  {
    if Undisturbed(Lines(stdout)) {
      UndisturbedCounts(stdout);
      assert Sum([]) == 0;
    } else {
      DisturbedIsManual(stdout);
    }
  }

  /** A person has to look exactly at disturbed recaps and at those without a readable change count. */
  lemma ManualReviewExactly(stdout: string)
    ensures Decide(stdout) == ManualReview <==>
              !Undisturbed(Lines(stdout)) || !SomeCount(Lines(stdout), HeaderIndex(Lines(stdout)))
  {
    SomeCountExactly(stdout);
    if Undisturbed(Lines(stdout)) {
      UndisturbedCounts(stdout);
    } else {
      DisturbedIsManual(stdout);
    }
  }

  /** One failed, unreachable or skipped count after the header line is enough. */
  lemma FlaggedIsManual(stdout: string, i: nat, field: string)
    requires HeaderIndex(Lines(stdout)) < i < |Lines(stdout)| && HasField(Lines(stdout)[i], field)
    requires FailedField(field) || SkippedField(field)
    ensures Decide(stdout) == ManualReview
  {
    assert Flagged(Lines(stdout)[i]);
    DisturbedIsManual(stdout);
  }

  /** Some change count is readable from line `h` on, and all of them are zero. */
  ghost predicate NothingLeft(lines: seq<string>, h: nat) {
    CountAt(lines, h, 0) && forall n: nat :: CountAt(lines, h, n) ==> n == 0
  }

  lemma ZeroTotal(stdout: string, h: nat)
    requires h == HeaderIndex(Lines(stdout))
    ensures ChangedCounts(stdout) != [] && Sum(ChangedCounts(stdout)) == 0 <==> NothingLeft(Lines(stdout), h)
  {
    var counts := ChangedCounts(stdout);
    SumIsZero(counts);
    CountsAre(stdout, 0);
    forall n: nat ensures CountAt(Lines(stdout), h, n) ==> n in counts {
      CountsAre(stdout, n);
    }
    forall i | 0 <= i < |counts| ensures CountAt(Lines(stdout), h, counts[i]) {
      CountsAre(stdout, counts[i]);
    }
  }

  lemma SmallMod(n: nat, m: nat)
    requires n < m
    ensures n % m == n && m % m == 0
  {
  }

  /** Below the wrap-around, completion means that some change count is readable and all are zero. */
  lemma CompletedMeansNothingLeft(stdout: string)
    requires Sum(ChangedCounts(stdout)) < U32_LIMIT
    ensures Decide(stdout) == Completed <==>
              Undisturbed(Lines(stdout)) && NothingLeft(Lines(stdout), HeaderIndex(Lines(stdout)))
  {
    CompletedExactly(stdout);
    SmallMod(Sum(ChangedCounts(stdout)), U32_LIMIT);
    ZeroTotal(stdout, HeaderIndex(Lines(stdout)));
  }

  /** The verdict is wrong, though the recap is undisturbed, exactly when a positive total wraps around to zero. */
  lemma WrongVerdictExactly(stdout: string)
    ensures Decide(stdout) == Completed && !NothingLeft(Lines(stdout), HeaderIndex(Lines(stdout))) <==>
            && Undisturbed(Lines(stdout))
            && Sum(ChangedCounts(stdout)) > 0 && Sum(ChangedCounts(stdout)) % U32_LIMIT == 0
  {
    CompletedExactly(stdout);
    ZeroTotal(stdout, HeaderIndex(Lines(stdout)));
    assert Sum([]) == 0;
  }
}
