/** Parsing what the printer printed gives back exactly the entries that it read. */
module AptRoundTrip {
  import opened Wrappers
  import opened Text
  import opened Apt

  // ---- joining blocks and taking them apart again ----

  /** A text without two line breaks in a row, and without one at its end. */
  predicate Compact(s: string) {
    s != [] && s[|s| - 1] != '\n' && forall i :: 0 <= i < |s| - 1 ==> !(s[i] == '\n' && s[i + 1] == '\n')
  }

  lemma {:induction false} JoinIsCompact(lines: seq<string>)
    requires lines != [] && forall i :: 0 <= i < |lines| ==> OneLine(lines[i]) && lines[i] != []
    ensures Compact(Join(lines, "\n")) && Join(lines, "\n")[0] == lines[0][0]
  {
    var s := Join(lines, "\n");
    if |lines| > 1 {
      var head, rest := lines[0], Join(lines[1..], "\n");
      JoinIsCompact(lines[1..]);
      assert s == head + "\n" + rest;
      assert rest[0] == lines[1][0] && rest[0] != '\n';
      forall i | 0 <= i < |s| - 1 ensures !(s[i] == '\n' && s[i + 1] == '\n') {
        if i > |head| {
          assert s[i] == rest[i - |head| - 1] && s[i + 1] == rest[i - |head|];
        }
      }
    }
  }

  lemma FindGap(block: string, rest: string)
    requires Compact(block)
    ensures Find(block + "\n\n" + rest, "\n\n") == Some(|block|)
  {
    var s := block + "\n\n" + rest;
    assert s[|block|..|block| + 2] == "\n\n";
    forall j: nat | j < |block| ensures !Occurs(s, j, "\n\n") {
      assert s[j..j + 2][0] == block[j];
      if j + 1 < |block| { assert s[j..j + 2][1] == block[j + 1]; }
    }
    FindIs(s, "\n\n", |block|);
  }

  lemma NoGap(block: string)
    requires Compact(block)
    ensures Find(block, "\n\n").None?
  {
    forall j: nat ensures !Occurs(block, j, "\n\n") {
      if j + 1 < |block| { assert block[j..j + 2] == [block[j], block[j + 1]]; }
    }
  }

  lemma {:induction false} SplitOfJoin(blocks: seq<string>)
    requires blocks != [] && forall i :: 0 <= i < |blocks| ==> Compact(blocks[i])
    ensures Split(Join(blocks, "\n\n"), "\n\n") == blocks
  {
    var s := Join(blocks, "\n\n");
    if |blocks| == 1 {
      NoGap(s);
    } else {
      var rest := Join(blocks[1..], "\n\n");
      SplitOfJoin(blocks[1..]);
      FindGap(blocks[0], rest);
      assert s == blocks[0] + "\n\n" + rest;
      assert s[..|blocks[0]|] == blocks[0] && s[|blocks[0]| + 2..] == rest;
    }
  }

  // ---- trimming ----

  /** `Trim` is fixed by what it removes: white space on both sides, up to a visible end. */
  lemma TrimIs(s: string, a: nat, b: nat)
    requires a < b <= |s|
    requires forall i :: 0 <= i < a || b <= i < |s| ==> IsWhitespace(s[i])
    requires !IsWhitespace(s[a]) && !IsWhitespace(s[b - 1])
    ensures Trim(s) == s[a..b]
  {
    assert Span(s, true) == a;
    var t := s[a..];
    assert t[b - a - 1] == s[b - 1];
    assert TrimmedLength(t) == b - a;
  }

  lemma VisibleEnds(s: string) returns (a: nat, b: nat)
    requires !Blank(s)
    ensures a < b <= |s| && !IsWhitespace(s[a]) && !IsWhitespace(s[b - 1])
    ensures forall i :: 0 <= i < a || b <= i < |s| ==> IsWhitespace(s[i])
  {
    a, b := Span(s, true), TrimmedLength(s);
  }

  lemma TrimFront(s: string)
    ensures Trim(" " + s) == Trim(s)
  {
    var u, n := " " + s, Span(s, true);
    assert u[1..] == s;
    assert Span(u, true) == 1 + n;
    assert u[1 + n..] == s[n..];
  }

  lemma TrimBack(s: string)
    ensures Trim(WithoutCarriageReturn(s)) == Trim(s)
  {
    var u := WithoutCarriageReturn(s);
    TrimBlank(s);
    TrimBlank(u);
    if !Blank(s) {
      var a, b := VisibleEnds(s);
      assert b <= |u|;
      TrimIs(s, a, b);
      TrimIs(u, a, b);
      assert u[a..b] == s[a..b];
    } else {
      assert Blank(u);
    }
  }

  // ---- the extracted fields stay on their line ----

  predicate Within(part: string, whole: string) {
    forall c :: c in part ==> c in whole
  }

  lemma {:induction false} LinesHaveNoBreak(s: string)
    ensures forall i :: 0 <= i < |Lines(s)| ==> OneLine(Lines(s)[i])
    decreases |s|
  {
    if s == [] {
    } else if Find(s, "\n").None? {
      if '\n' in s {
        var j :| 0 <= j < |s| && s[j] == '\n';
        assert s[j..j + 1] == "\n";
        assert Occurs(s, j, "\n");
      }
    } else {
      var n := Find(s, "\n").value;
      LinesHaveNoBreak(s[n + 1..]);
      assert OneLine(s[..n]) by {
        if '\n' in s[..n] {
          var j :| 0 <= j < n && s[j] == '\n';
          assert s[j..j + 1] == "\n";
          assert Occurs(s, j, "\n");
        }
      }
    }
  }

  lemma {:induction false} WordsAreVisible(s: string)
    ensures forall i :: 0 <= i < |Words(s)| ==>
              Words(s)[i] != [] && Within(Words(s)[i], s) &&
              forall j :: 0 <= j < |Words(s)[i]| ==> !IsWhitespace(Words(s)[i][j])
    decreases |s|
  {
    if s == [] {
    } else if IsWhitespace(s[0]) {
      WordsAreVisible(s[1..]);
    } else {
      WordsAreVisible(s[Span(s, false)..]);
    }
  }

  lemma {:induction false} PiecesAreWithin(s: string, separator: string)
    requires separator != []
    ensures forall i :: 0 <= i < |Split(s, separator)| ==> Within(Split(s, separator)[i], s)
    decreases |s|
  {
    if Find(s, separator).Some? {
      PiecesAreWithin(s[Find(s, separator).value + |separator|..], separator);
    }
  }

  /** What the printer prints of an entry: values without line breaks and a candidate that is one visible word. */
  ghost predicate Printable(e: Entry) {
    && OneLine(e.package) && OneLine(e.installed) && OneLine(e.candidate)
    && e.candidate != [] && forall j :: 0 <= j < |e.candidate| ==> !IsWhitespace(e.candidate[j])
  }

  lemma ReadLineIsPrintable(raw: string)
    requires OneLine(raw) && ReadLine(raw).Some?
    ensures Printable(ReadLine(raw).value)
  {
    var line := Trim(raw);
    assert Within(line, raw);
    WordsAreVisible(line);
    PiecesAreWithin(line, MARKER);
    var e := ReadLine(raw).value;
    assert Within(e.package, line) && Within(e.installed, line) && Within(e.candidate, line);
  }

  lemma {:induction false} EntriesArePrintable(lines: seq<string>)
    requires forall i :: 0 <= i < |lines| ==> OneLine(lines[i])
    ensures forall i :: 0 <= i < |Entries(lines)| ==> Printable(Entries(lines)[i])
  {
    if lines != [] {
      EntriesArePrintable(lines[1..]);
      if ReadLine(lines[0]).Some? {
        ReadLineIsPrintable(lines[0]);
      }
    }
  }

  // ---- one block ----

  lemma FindColon(key: string, rest: string)
    requires ':' !in key
    ensures SplitOnce(key + ":" + rest, ":") == Some((key, rest))
  {
    var s := key + ":" + rest;
    assert s[|key|..|key| + 1] == ":";
    forall j: nat | j < |key| ensures !Occurs(s, j, ":") {
      assert s[j..j + 1][0] == key[j];
    }
    FindIs(s, ":", |key|);
    assert s[..|key|] == key && s[|key| + 1..] == rest;
  }

  lemma ReturnAtEnd(head: string, tail: string)
    requires tail != []
    ensures WithoutCarriageReturn(head + tail) == head + WithoutCarriageReturn(tail)
  {
    assert (head + tail)[..|head + tail| - 1] == head + tail[..|tail| - 1];
  }

  /** A keyed line is read with its trimmed value, whether or not `lines` dropped a carriage return from it. */
  lemma KeyedLine(key: string, value: string, whole: bool) returns (line: string, raw: string)
    requires ':' !in key
    ensures line == (if whole then key + ": " + value else WithoutCarriageReturn(key + ": " + value))
    ensures SplitOnce(line, ":") == Some((key, raw)) && Trim(raw) == Trim(value)
  {
    var padded := " " + value;
    assert key + ": " + value == (key + ":") + padded;
    ReturnAtEnd(key + ":", padded);
    TrimFront(value);
    TrimBack(padded);
    raw := if whole then padded else WithoutCarriageReturn(padded);
    line := key + ":" + raw;
    FindColon(key, raw);
  }

  lemma TrimVisible(s: string)
    requires s != [] && !IsWhitespace(s[0]) && !IsWhitespace(s[|s| - 1])
    ensures Trim(s) == s
  {
    TrimIs(s, 0, |s|);
  }

  lemma {:induction false} LowercaseSame(s: string)
    requires forall i :: 0 <= i < |s| ==> !('A' <= s[i] <= 'Z')
    ensures Lowercase(s) == s
  {
    if s != [] {
      LowercaseSame(s[1..]);
    }
  }

  function YesNo(value: bool): (s: string) {
    if value then "yes" else "no"
  }

  lemma YesNoReads(value: bool)
    ensures ParseBool(YesNo(value)) == Ok(value) && Trim(YesNo(value)) == YesNo(value)
  {
    LowercaseSame(YesNo(value));
    TrimVisible(YesNo(value));
  }

  function Set(f: Fields, key: string, value: string): (r: Fields) {
    if key == "Package" then f.(package := Some(value))
    else if key == "Installed" then f.(installed := Some(value))
    else f.(candidate := if value == [] then None else Some(value))
  }

  predicate Letters(s: string) {
    s != [] && forall i :: 0 <= i < |s| ==> 'A' <= s[i] <= 'z'
  }

  lemma KeyIsLetters(key: string)
    requires key in {"Package", "Installed", "Candidate", "Security", "Held", "Authenticated"}
    ensures Letters(key)
  {
    if key == "Package" {
      assert Letters("Package");
    } else if key == "Installed" {
      assert Letters("Installed");
    } else if key == "Candidate" {
      assert Letters("Candidate");
    } else if key == "Security" {
      assert Letters("Security");
    } else if key == "Held" {
      assert Letters("Held");
    } else {
      assert Letters("Authenticated");
    }
  }

  lemma LettersAreVisible(s: string)
    requires Letters(s)
    ensures Trim(s) == s && ':' !in s
  {
    TrimVisible(s);
  }

  lemma KeyIsVisible(key: string)
    requires key in {"Package", "Installed", "Candidate", "Security", "Held", "Authenticated"}
    ensures Trim(key) == key && ':' !in key
  {
    KeyIsLetters(key);
    LettersAreVisible(key);
  }

  lemma ReadKeyed(f: Fields, key: string, line: string, raw: string)
    requires Trim(key) == key && SplitOnce(line, ":") == Some((key, raw))
    ensures ReadField(f, line) == SetField(f, key, Trim(raw))
  {
  }

  lemma TextSets(f: Fields, key: string, value: string)
    requires key in {"Package", "Installed", "Candidate"}
    ensures SetField(f, key, value) == Ok(Set(f, key, value))
  {
  }

  lemma ReadText(f: Fields, key: string, value: string)
    requires key in {"Package", "Installed", "Candidate"}
    ensures ReadField(f, WithoutCarriageReturn(key + ": " + value)) == Ok(Set(f, key, Trim(value)))
  {
    KeyIsVisible(key);
    var line, raw := KeyedLine(key, value, false);
    ReadKeyed(f, key, line, raw);
    TextSets(f, key, Trim(value));
  }

  function Switched(f: Fields, key: string, value: bool): (r: Fields) {
    if key == "Security" then f.(security := value)
    else if key == "Held" then f.(held := value)
    else f.(authenticated := value)
  }

  lemma SwitchSets(f: Fields, key: string, value: bool, text: string)
    requires key in {"Security", "Held", "Authenticated"} && ParseBool(text) == Ok(value)
    ensures SetField(f, key, text) == Ok(Switched(f, key, value))
  {
  }

  lemma SwitchOf(f: Fields, key: string, value: bool, line: string, raw: string)
    requires key in {"Security", "Held", "Authenticated"}
    requires SplitOnce(line, ":") == Some((key, raw)) && Trim(raw) == Trim(YesNo(value))
    ensures ReadField(f, line) == Ok(Switched(f, key, value))
  {
    KeyIsVisible(key);
    YesNoReads(value);
    ReadKeyed(f, key, line, raw);
    SwitchSets(f, key, value, YesNo(value));
  }

  lemma ReadSwitch(f: Fields, key: string, value: bool)
    requires key in {"Security", "Held", "Authenticated"}
    ensures ReadField(f, WithoutCarriageReturn(key + ": " + YesNo(value))) == Ok(Switched(f, key, value))
    ensures ReadField(f, key + ": " + YesNo(value)) == Ok(Switched(f, key, value))
  {
    KeyIsVisible(key);
    var cut, rawCut := KeyedLine(key, YesNo(value), false);
    SwitchOf(f, key, value, cut, rawCut);
    var full, rawFull := KeyedLine(key, YesNo(value), true);
    SwitchOf(f, key, value, full, rawFull);
  }

  type Step = (Fields, string) -> Result<Fields, ParseError>

  lemma FoldNext(step: Step, f: Fields, f': Fields, lines: seq<string>)
    requires |lines| > 1 && step(f, WithoutCarriageReturn(lines[0])) == Ok(f')
    ensures FoldLines(step, f, AsRead(lines)) == FoldLines(step, f', AsRead(lines[1..]))
  {
    assert AsRead(lines)[1..] == AsRead(lines[1..]);
  }

  lemma FoldSix(step: Step, f: seq<Fields>, l: seq<string>)
    requires |l| == 6 && |f| == 7
    requires forall i :: 0 <= i < 5 ==> step(f[i], WithoutCarriageReturn(l[i])) == Ok(f[i + 1])
    requires step(f[5], l[5]) == Ok(f[6])
    ensures FoldLines(step, f[0], AsRead(l)) == Ok(f[6])
  {
    FoldNext(step, f[0], f[1], l);
    FoldNext(step, f[1], f[2], l[1..]);
    assert l[1..][1..] == l[2..] && l[2..][1..] == l[3..] && l[3..][1..] == l[4..] && l[4..][1..] == l[5..];
    FoldNext(step, f[2], f[3], l[2..]);
    FoldNext(step, f[3], f[4], l[3..]);
    FoldNext(step, f[4], f[5], l[4..]);
    assert AsRead(l[5..]) == l[5..] && l[5..][1..] == [];
    assert FoldLines(step, f[5], l[5..]) == FoldLines(step, f[6], []);
  }

  function PrintedFields(e: Entry): (f: Fields) {
    Fields(Some(Trim(e.package)), Some(Trim(e.installed)), Some(e.candidate), e.security, false, true)
  }

  lemma FieldLinesAre(e: Entry)
    ensures var l := FieldLines(e);
            && |l| == 6
            && l[0] == "Package" + ": " + e.package
            && l[1] == "Installed" + ": " + e.installed
            && l[2] == "Candidate" + ": " + e.candidate
            && l[3] == "Security" + ": " + YesNo(e.security)
            && l[4] == "Held" + ": " + YesNo(false)
            && l[5] == "Authenticated" + ": " + YesNo(true)
            && forall i :: 0 <= i < 6 ==> l[i] != [] && l[i][0] != '\n'
  {
  }

  /** The field variables before and after each printed line. */
  function Stages(e: Entry): (f: seq<Fields>) {
    var f1 := NO_FIELDS.(package := Some(Trim(e.package)));
    var f2 := f1.(installed := Some(Trim(e.installed)));
    var f3 := f2.(candidate := Some(e.candidate));
    var f4 := f3.(security := e.security);
    [NO_FIELDS, f1, f2, f3, f4, f4, f4]
  }

  lemma TextStage(e: Entry, i: nat, key: string, value: string)
    requires Printable(e) && i < 3
    requires key == ["Package", "Installed", "Candidate"][i] && value == [e.package, e.installed, e.candidate][i]
    ensures FieldLines(e)[i] == key + ": " + value
    ensures Stages(e)[i + 1] == Set(Stages(e)[i], key, Trim(value))
  {
    FieldLinesAre(e);
    TrimVisible(e.candidate);
  }

  lemma TextStageReads(e: Entry, i: nat)
    requires Printable(e) && i < 3
    ensures ReadField(Stages(e)[i], WithoutCarriageReturn(FieldLines(e)[i])) == Ok(Stages(e)[i + 1])
  {
    var key, value := ["Package", "Installed", "Candidate"][i], [e.package, e.installed, e.candidate][i];
    TextStage(e, i, key, value);
    ReadText(Stages(e)[i], key, value);
  }

  lemma SwitchStageReads(e: Entry, i: nat)
    requires 3 <= i < 6
    ensures ReadField(Stages(e)[i], WithoutCarriageReturn(FieldLines(e)[i])) == Ok(Stages(e)[i + 1])
    ensures ReadField(Stages(e)[i], FieldLines(e)[i]) == Ok(Stages(e)[i + 1])
  {
    var f := Stages(e)[i];
    FieldLinesAre(e);
    var key := if i == 3 then "Security" else if i == 4 then "Held" else "Authenticated";
    var value := if i == 3 then e.security else i == 5;
    ReadSwitch(f, key, value);
    assert FieldLines(e)[i] == key + ": " + YesNo(value);
    assert Stages(e)[i + 1] == Switched(f, key, value);
  }

  lemma ReadsPrintedFields(e: Entry)
    requires Printable(e)
    ensures FoldLines(ReadField, NO_FIELDS, AsRead(FieldLines(e))) == Ok(PrintedFields(e))
  {
    forall i | 0 <= i < 5
      ensures ReadField(Stages(e)[i], WithoutCarriageReturn(FieldLines(e)[i])) == Ok(Stages(e)[i + 1])
    {
      if i < 3 { TextStageReads(e, i); } else { SwitchStageReads(e, i); }
    }
    SwitchStageReads(e, 5);
    FoldSix(ReadField, Stages(e), FieldLines(e));
  }

  // ---- the round trip ----

  /** The record that an entry should come back as. */
  function RecordOf(e: Entry): (r: PackageRecord) {
    PackageRecord(Trim(e.package), Trim(e.installed), Some(e.candidate),
                  if e.security then Security else Normal, false, true)
  }

  predicate Complete(e: Entry) {
    !Blank(e.package) && !Blank(e.installed)
  }

  /** All records in order, or the missing field of the first incomplete entry. */
  function Expected(entries: seq<Entry>): (r: Result<seq<PackageRecord>, ParseError>) {
    if entries == [] then Ok([])
    else if Blank(entries[0].package) then Err(MissingField("Package"))
    else if Blank(entries[0].installed) then Err(MissingField("Installed"))
    else Prepend([RecordOf(entries[0])], Expected(entries[1..]))
  }

  lemma PrintedLines(e: Entry)
    requires Printable(e)
    ensures forall i :: 0 <= i < 6 ==> OneLine(FieldLines(e)[i]) && FieldLines(e)[i] != []
  {
  }

  lemma BlockReads(e: Entry)
    requires Printable(e)
    ensures var block := Join(FieldLines(e), "\n");
            && Compact(block) && Trim(block) != []
            && FoldLines(ReadField, NO_FIELDS, Lines(block)) == Ok(PrintedFields(e))
  {
    var block := Join(FieldLines(e), "\n");
    PrintedLines(e);
    LinesOfJoin(FieldLines(e));
    JoinIsCompact(FieldLines(e));
    ReadsPrintedFields(e);
    assert block[0] == 'P';
    TrimBlank(block);
  }

  lemma BlockParses(e: Entry)
    requires Printable(e)
    ensures ParseBlock(Join(FieldLines(e), "\n")) ==
              if Blank(e.package) then Err(MissingField("Package"))
              else if Blank(e.installed) then Err(MissingField("Installed"))
              else Ok(RecordOf(e))
  {
    BlockReads(e);
    TrimBlank(e.package);
    TrimBlank(e.installed);
  }

  lemma {:induction false} BlocksParse(entries: seq<Entry>)
    requires forall i :: 0 <= i < |entries| ==> Printable(entries[i])
    ensures |Blocks(entries)| == |entries|
    ensures forall i :: 0 <= i < |entries| ==> Compact(Blocks(entries)[i])
    ensures ParseBlocks(Blocks(entries)) == Expected(entries)
  {
    if entries != [] {
      BlocksParse(entries[1..]);
      BlockReads(entries[0]);
      BlockParses(entries[0]);
      var block := Join(FieldLines(entries[0]), "\n");
      assert Blocks(entries)[0] == block && Blocks(entries)[1..] == Blocks(entries[1..]);
    }
  }

  /** The parser answers every printed listing with the expected records or the first missing field. */
  lemma RoundTrip(output: string)
    ensures Parsed(NormalizeAptList(output)) == Expected(Entries(Lines(output)))
  {
    var entries := Entries(Lines(output));
    LinesHaveNoBreak(output);
    EntriesArePrintable(Lines(output));
    BlocksParse(entries);
    if entries == [] {
      NothingParses();
    } else {
      SplitOfJoin(Blocks(entries));
    }
  }

  lemma NothingParses()
    ensures Parsed("") == Ok([])
  {
    assert Find("", "\n\n").None?;
    assert Split("", "\n\n") == [""];
    TrimBlank("");
    assert ParseBlocks([""]) == ParseBlocks([""][1..]);
  }

  lemma {:induction false} ExpectedExactly(entries: seq<Entry>)
    ensures Expected(entries).Ok? <==> forall i :: 0 <= i < |entries| ==> Complete(entries[i])
    ensures Expected(entries).Ok? ==>
              && |Expected(entries).value| == |entries|
              && forall i :: 0 <= i < |entries| ==> Expected(entries).value[i] == RecordOf(entries[i])
  {
    if entries != [] {
      ExpectedExactly(entries[1..]);
      assert forall i :: 0 < i < |entries| ==> entries[i] == entries[1..][i - 1];
      assert Expected(entries).Ok? <==> Complete(entries[0]) && Expected(entries[1..]).Ok?;
    }
  }

  /**
   It succeeds exactly when every kept line has a package and an installed version, and then returns one record per
   line.
   */
  lemma RoundTripExactly(output: string)
    ensures var entries := Entries(Lines(output));
            var r := Parsed(NormalizeAptList(output));
            && (r.Ok? <==> forall i :: 0 <= i < |entries| ==> Complete(entries[i]))
            && (r.Ok? ==> |r.value| == |entries| && forall i :: 0 <= i < |entries| ==>
                r.value[i] == RecordOf(entries[i]))
  {
    RoundTrip(output);
    ExpectedExactly(Entries(Lines(output)));
  }
}
