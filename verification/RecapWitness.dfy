/** An Ansible output with remaining changes that is decided as completed. */
module RecapWitness {
  import opened Wrappers
  import opened Text
  import opened Numbers
  import opened Recap

  predicate IsWord(w: string) {
    w != [] && forall j :: 0 <= j < |w| ==> !IsWhitespace(w[j])
  }

  lemma {:induction false} WordsOfJoin(words: seq<string>)
    requires forall i :: 0 <= i < |words| ==> IsWord(words[i])
    ensures Words(Join(words, " ")) == words
  {
    if words != [] {
      var w, s := words[0], Join(words, " ");
      assert Span(s, false) == |w| by {
        assert forall j :: 0 <= j < |w| ==> s[j] == w[j];
        if |words| > 1 { assert s[|w|] == ' '; }
      }
      assert s[..|w|] == w;
      if |words| > 1 {
        assert s[|w|..] == " " + Join(words[1..], " ");
        assert s[|w|..][1..] == Join(words[1..], " ");
        WordsOfJoin(words[1..]);
      }
    }
  }

  lemma DecimalStep(digits: string, k: nat)
    requires k < |digits| && forall i :: 0 <= i < |digits| ==> IsDigit(digits[i])
    ensures DecimalValue(digits[..k + 1]) == 10 * DecimalValue(digits[..k]) + (digits[k] as int - '0' as int)
  {
    assert digits[..k + 1][..k] == digits[..k];
  }

  const DIGITS := "2147483648"

  lemma AreDigits()
    ensures |DIGITS| == 10 && forall i :: 0 <= i < |DIGITS| ==> IsDigit(DIGITS[i])
  {
  }

  lemma FirstFiveDigits()
    ensures forall i :: 0 <= i < |DIGITS[..5]| ==> IsDigit(DIGITS[..5][i])
    ensures DecimalValue(DIGITS[..5]) == 21474
  {
    AreDigits();
    assert DIGITS[..0] == "";
    DecimalStep(DIGITS, 0);
    assert DecimalValue(DIGITS[..1]) == 2;
    DecimalStep(DIGITS, 1);
    assert DecimalValue(DIGITS[..2]) == 21;
    DecimalStep(DIGITS, 2);
    assert DecimalValue(DIGITS[..3]) == 214;
    DecimalStep(DIGITS, 3);
    assert DecimalValue(DIGITS[..4]) == 2147;
    DecimalStep(DIGITS, 4);
  }

  lemma AllTenDigits()
    ensures forall i :: 0 <= i < |DIGITS| ==> IsDigit(DIGITS[i])
    ensures DecimalValue(DIGITS) == 0x8000_0000
  {
    AreDigits();
    FirstFiveDigits();
    DecimalStep(DIGITS, 5);
    DecimalStep(DIGITS, 6);
    DecimalStep(DIGITS, 7);
    DecimalStep(DIGITS, 8);
    DecimalStep(DIGITS, 9);
    assert DIGITS[..10] == DIGITS;
  }

  lemma TwoToThe31()
    ensures ParseU32(DIGITS) == Some(0x8000_0000)
  {
    AllTenDigits();
    assert DIGITS[0] != '+';
  }

  // ---- a recap of three lines ----

  /** A line that `Lines` returns as it is and that announces nothing. */
  ghost predicate PlainLine(s: string) {
    s != [] && OneLine(s) && WithoutCarriageReturn(s) == s && !AnnouncesSkip(s)
  }

  ghost predicate QuietLine(s: string) {
    PlainLine(s) && !SomeField(s, ReportsFailure) && !SomeField(s, ReportsSkip)
  }

  lemma ThreeLines(h: string, a: string, b: string)
    requires PlainLine(h) && PlainLine(a) && PlainLine(b)
    ensures Lines(Join([h, a, b], "\n")) == [h, a, b]
  {
    LinesOfJoin([h, a, b]);
    assert [h, a, b][1..] == [a, b] && [a, b][1..] == [b];
    assert AsRead([b]) == [b];
    assert AsRead([a, b]) == [a, b];
  }

  lemma ThreeAreUndisturbed(h: string, a: string, b: string)
    requires PlainLine(h) && Contains(h, HEADER) && QuietLine(a) && QuietLine(b)
    ensures HeaderIndex([h, a, b]) == 0 && Undisturbed([h, a, b])
  {
    FlaggedExactly(a);
    FlaggedExactly(b);
    AnnouncementExactly(h);
    AnnouncementExactly(a);
    AnnouncementExactly(b);
  }

  lemma FlattenThree(a: string, b: string, c: string)
    ensures Flatten([a, b, c]) == Words(a) + (Words(b) + Words(c))
  {
    assert [a, b, c][1..] == [b, c] && [b, c][1..] == [c] && [c][1..] == [];
    assert Flatten([c]) == Words(c);
    assert Flatten([b, c]) == Words(b) + Words(c);
  }

  lemma CountsOfThree(h: string, a: string, b: string)
    requires PlainLine(h) && Contains(h, HEADER) && PlainLine(a) && PlainLine(b)
    ensures ChangedCounts(Join([h, a, b], "\n")) == Counts(Words(h)) + (Counts(Words(a)) + Counts(Words(b)))
  {
    ThreeLines(h, a, b);
    assert FromHeader([h, a, b]) == [h, a, b];
    FlattenThree(h, a, b);
    CountsAppend(Words(h), Words(a) + Words(b));
    CountsAppend(Words(a), Words(b));
  }

  lemma WrappedTotalCompletes(s: string, n: nat)
    requires ChangedCounts(s) == [n, n] && Undisturbed(Lines(s)) && 2 * n == U32_LIMIT
    ensures Decide(s) == Completed
  {
    assert Sum([n, n]) == n + Sum([n]) by { assert [n, n][1..] == [n]; }
    assert Sum([n]) == n;
    SmallMod(0, U32_LIMIT);
    assert Sum(ChangedCounts(s)) % U32_LIMIT == 0;
    CompletedExactly(s);
  }

  /** A header and two quiet lines that each report `n` changes. */
  lemma TwoHostsComplete(h: string, a: string, b: string, n: nat)
    requires PlainLine(h) && Contains(h, HEADER) && QuietLine(a) && QuietLine(b) && 2 * n == U32_LIMIT
    requires Counts(Words(h)) == [] && Counts(Words(a)) == [n] && Counts(Words(b)) == [n]
    ensures Lines(Join([h, a, b], "\n")) == [h, a, b]
    ensures ChangedCounts(Join([h, a, b], "\n")) == [n, n] && Decide(Join([h, a, b], "\n")) == Completed
  {
    ThreeLines(h, a, b);
    ThreeAreUndisturbed(h, a, b);
    CountsOfThree(h, a, b);
    WrappedTotalCompletes(Join([h, a, b], "\n"), n);
  }

  // ---- the words of its lines ----

  const FIELD := "changed=2147483648"

  const COUNT := 0x8000_0000

  function HostLine(host: string): (line: string) {
    Join([host, ":", FIELD, "failed=0"], " ")
  }

  lemma {:induction false} JoinIsLine(words: seq<string>)
    requires words != [] && forall i :: 0 <= i < |words| ==> IsWord(words[i])
    ensures var s := Join(words, " ");
            s != [] && OneLine(s) && !IsWhitespace(s[|s| - 1]) && words[0] != [] && s[0] == words[0][0]
  {
    assert IsWhitespace('\n') && IsWord(words[0]);
    if |words| > 1 {
      JoinIsLine(words[1..]);
      assert Join(words, " ") == words[0] + " " + Join(words[1..], " ");
    }
  }

  lemma JoinIsPlain(words: seq<string>)
    requires words != [] && (forall i :: 0 <= i < |words| ==> IsWord(words[i])) && words[0] != [] && words[0][0] != 's'
    ensures PlainLine(Join(words, " "))
  {
    var s := Join(words, " ");
    JoinIsLine(words);
    assert !IsWhitespace(s[0]) by { assert IsWord(words[0]); }
    assert Span(s, true) == 0 && TrimStart(s) == s;
    assert IsWhitespace('\r');
  }

  /** A word that reports neither failures nor skips. */
  predicate IsQuiet(w: string) {
    IsWord(w) && !ReportsFailure(w) && !ReportsSkip(w)
  }

  lemma FieldIsWord()
    ensures IsWord(FIELD)
  {
  }

  lemma FieldIsQuiet()
    ensures IsQuiet(FIELD) && ChangedCount(FIELD) == Some(COUNT)
  {
    FieldIsWord();
    TwoToThe31();
    assert FIELD[8..] == DIGITS;
    assert FIELD[0] == 'c';
  }

  lemma OthersAreQuiet(w: string)
    requires w == "a" || w == "b" || w == ":" || w == "PLAY" || w == "RECAP"
    ensures IsQuiet(w) && ChangedCount(w).None?
  {
    assert w[0] != 'f' && w[0] != 'u' && w[0] != 's' && w[0] != 'c';
  }

  lemma NoFailuresIsQuiet()
    ensures IsQuiet("failed=0") && ChangedCount("failed=0").None?
  {
    assert "failed=0"[7..] == "0";
    assert "failed=0"[0] == 'f';
  }

  lemma CountOfFour(a: string, b: string, c: string, d: string, n: nat)
    requires ChangedCount(a).None? && ChangedCount(b).None? && ChangedCount(c) == Some(n) && ChangedCount(d).None?
    ensures Counts([a, b, c, d]) == [n]
  {
    assert [a, b, c, d][1..] == [b, c, d] && [b, c, d][1..] == [c, d] && [c, d][1..] == [d] && [d][1..] == [];
    assert Counts([d]) == [];
    assert Counts([c, d]) == [n];
  }

  lemma FourWords(a: string, b: string, c: string, d: string)
    requires IsQuiet(a) && IsQuiet(b) && IsQuiet(c) && IsQuiet(d) && a[0] != 's'
    ensures QuietLine(Join([a, b, c, d], " ")) && Words(Join([a, b, c, d], " ")) == [a, b, c, d]
  {
    WordsOfJoin([a, b, c, d]);
    JoinIsPlain([a, b, c, d]);
  }

  lemma HostLineReads(host: string)
    requires host == "a" || host == "b"
    ensures QuietLine(HostLine(host)) && Counts(Words(HostLine(host))) == [COUNT]
  {
    FieldIsQuiet();
    OthersAreQuiet(host);
    OthersAreQuiet(":");
    NoFailuresIsQuiet();
    FourWords(host, ":", FIELD, "failed=0");
    CountOfFour(host, ":", FIELD, "failed=0", COUNT);
  }

  lemma TwoWords(a: string, b: string)
    requires IsWord(a) && IsWord(b) && a[0] != 's' && ChangedCount(a).None? && ChangedCount(b).None?
    ensures PlainLine(a + " " + b) && Counts(Words(a + " " + b)) == []
  {
    assert Join([a, b], " ") == a + " " + b by { assert [a, b][1..] == [b]; }
    WordsOfJoin([a, b]);
    JoinIsPlain([a, b]);
    assert [a, b][1..] == [b] && [b][1..] == [];
    assert Counts([b]) == [];
  }

  lemma HeaderReads()
    ensures PlainLine(HEADER) && Contains(HEADER, HEADER) && Counts(Words(HEADER)) == []
  {
    OthersAreQuiet("PLAY");
    OthersAreQuiet("RECAP");
    TwoWords("PLAY", "RECAP");
    assert "PLAY" + " " + "RECAP" == HEADER;
    ContainsItself(HEADER);
  }

  lemma ContainsItself(s: string)
    ensures Contains(s, s)
  {
    assert s[0..|s|] == s;
    assert Occurs(s, 0, s);
  }

  /** The output of two hosts that each report 2^31 remaining changes is settled as completed. */
  lemma WrapAroundHidesChanges()
    ensures var output := Join([HEADER, HostLine("a"), HostLine("b")], "\n");
            && Lines(output) == [HEADER, HostLine("a"), HostLine("b")]
            && ChangedCounts(output) == [0x8000_0000, 0x8000_0000]
            && Decide(output) == Completed
  {
    HeaderReads();
    HostLineReads("a");
    HostLineReads("b");
    TwoHostsComplete(HEADER, HostLine("a"), HostLine("b"), COUNT);
  }
}
