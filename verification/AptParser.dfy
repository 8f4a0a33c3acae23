/** What the parser makes of any block: the last line of each key decides, whatever the others say. */
module AptParser {
  import opened Wrappers
  import opened Text
  import opened Apt
  import opened AptRoundTrip

  // ---- switches ----

  predicate SameLetter(a: char, b: char) {
    a == b || ('A' <= a <= 'Z' && 'a' <= b <= 'z' && a as int + 32 == b as int)
  }

  /** The text reads like a word in small letters, in any mix of ASCII case. */
  predicate Spells(s: string, word: string) {
    |s| == |word| && forall i :: 0 <= i < |s| ==> SameLetter(s[i], word[i])
  }

  ghost predicate Means(s: string, value: bool) {
    if value then Spells(s, "yes") || Spells(s, "true") || Spells(s, "1")
    else Spells(s, "no") || Spells(s, "false") || Spells(s, "0")
  }

  predicate SmallLetters(word: string) {
    forall i :: 0 <= i < |word| ==> !('A' <= word[i] <= 'Z')
  }

  lemma {:induction false} LowercaseExactly(s: string, word: string)
    requires SmallLetters(word)
    ensures Lowercase(s) == word <==> Spells(s, word)
  {
    if s != [] && word != [] {
      LowercaseExactly(s[1..], word[1..]);
      assert Spells(s, word) <==> SameLetter(s[0], word[0]) && Spells(s[1..], word[1..]) by {
        assert forall i :: 0 < i < |s| && |s| == |word| ==> s[i] == s[1..][i - 1] && word[i] == word[1..][i - 1];
      }
      assert Lowercase(s) == word <==> Lowercase(s)[0] == word[0] && Lowercase(s)[1..] == word[1..];
    }
  }

  lemma WordsAreSmall()
    ensures SmallLetters("yes") && SmallLetters("true") && SmallLetters("1")
    ensures SmallLetters("no") && SmallLetters("false") && SmallLetters("0")
  {
  }

  lemma BoolExactly(s: string, value: bool)
    ensures ParseBool(s) == Ok(value) <==> Means(s, value)
    ensures ParseBool(s).Err? ==> ParseBool(s) == Err(InvalidBoolean(s))
  {
    WordsAreSmall();
    LowercaseExactly(s, "yes");
    LowercaseExactly(s, "true");
    LowercaseExactly(s, "1");
    LowercaseExactly(s, "no");
    LowercaseExactly(s, "false");
    LowercaseExactly(s, "0");
  }

  // ---- one line ----

  /** Position of the first colon. */
  ghost function Colon(line: string): (i: nat)
    requires ':' in line
    ensures i < |line| && line[i] == ':' && forall j :: 0 <= j < i ==> line[j] != ':'
  {
    if line[0] == ':' then 0 else 1 + Colon(line[1..])
  }

  ghost function KeyOf(line: string): (key: string)
    requires ':' in line
  {
    Trim(line[..Colon(line)])
  }

  ghost function ValueOf(line: string): (value: string)
    requires ':' in line
  {
    Trim(line[Colon(line) + 1..])
  }

  const SWITCHES := {"Security", "Held", "Authenticated"}

  ghost predicate IsSwitch(s: string) {
    Means(s, true) || Means(s, false)
  }

  ghost predicate Readable(line: string) {
    ':' in line && (KeyOf(line) in SWITCHES ==> IsSwitch(ValueOf(line)))
  }

  lemma SplitsAtColon(line: string)
    ensures SplitOnce(line, ":").Some? <==> ':' in line
    ensures ':' in line ==> SplitOnce(line, ":") == Some((line[..Colon(line)], line[Colon(line) + 1..]))
  {
    if ':' in line {
      FindColon(line[..Colon(line)], line[Colon(line) + 1..]);
      assert line == line[..Colon(line)] + ":" + line[Colon(line) + 1..];
    } else {
      forall i: nat ensures !Occurs(line, i, ":") {
        if i < |line| { assert line[i..i + 1][0] == line[i]; }
      }
    }
  }

  lemma SwitchExactly(s: string)
    ensures ParseBool(s).Ok? <==> IsSwitch(s)
    ensures ParseBool(s).Ok? ==> Means(s, ParseBool(s).value)
    ensures ParseBool(s).Err? ==> ParseBool(s) == Err(InvalidBoolean(s))
  {
    BoolExactly(s, true);
    BoolExactly(s, false);
  }

  /** The error of a line that cannot be read. */
  ghost function FaultOf(line: string): (e: ParseError) {
    if ':' in line then InvalidBoolean(ValueOf(line)) else MalformedLine(line)
  }

  lemma SetExactly(f: Fields, key: string, value: string)
    ensures SetField(f, key, value).Ok? <==> (key in SWITCHES ==> IsSwitch(value))
    ensures SetField(f, key, value).Err? ==> SetField(f, key, value) == Err(InvalidBoolean(value))
  {
    SwitchExactly(value);
    KeysDiffer();
  }

  lemma KeysDiffer()
    ensures |"Package"| == 7 && |"Installed"| == 9 && |"Candidate"| == 9 && |"Security"| == 8 && |"Held"| == 4
    ensures |"Authenticated"| == 13 && "Installed" != "Candidate"
  {
    assert "Installed"[0] != "Candidate"[0];
  }

  lemma ReadsKeyed(f: Fields, line: string)
    requires ':' in line
    ensures ReadField(f, line) == SetField(f, KeyOf(line), ValueOf(line))
  {
    SplitsAtColon(line);
  }

  lemma LineExactly(f: Fields, line: string)
    ensures ReadField(f, line).Ok? <==> Readable(line)
    ensures ReadField(f, line).Err? ==> ReadField(f, line) == Err(FaultOf(line))
  {
    if ':' in line {
      ReadsKeyed(f, line);
      SetExactly(f, KeyOf(line), ValueOf(line));
    } else {
      SplitsAtColon(line);
    }
  }

  // ---- a block ----

  /** The value of the last line with this key. */
  ghost function LastValue(lines: seq<string>, key: string): (value: Option<string>) {
    if lines == [] then None
    else
      var line := lines[|lines| - 1];
      if ':' in line && KeyOf(line) == key then Some(ValueOf(line)) else LastValue(lines[..|lines| - 1], key)
  }

  ghost predicate SwitchIs(value: Option<string>, otherwise: bool, b: bool) {
    if value.None? then b == otherwise else Means(value.value, b)
  }

  /** The variables after these lines: each holds the last value of its key, a switch without a line its default. */
  ghost predicate HoldsLast(lines: seq<string>, f: Fields) {
    && f.package == LastValue(lines, "Package")
    && f.installed == LastValue(lines, "Installed")
    && f.candidate == (if LastValue(lines, "Candidate") == Some("") then None else LastValue(lines, "Candidate"))
    && SwitchIs(LastValue(lines, "Security"), false, f.security)
    && SwitchIs(LastValue(lines, "Held"), false, f.held)
    && SwitchIs(LastValue(lines, "Authenticated"), true, f.authenticated)
  }

  lemma {:induction false} FoldAppends(step: Step, f: Fields, lines: seq<string>, line: string)
    ensures FoldLines(step, f, lines + [line]) ==
              match FoldLines(step, f, lines)
              case Err(e) => Err(e)
              case Ok(f') => step(f', line)
    decreases |lines|
  {
    if lines == [] {
      assert [] + [line] == [line] && [line][1..] == [];
    } else {
      assert (lines + [line])[0] == lines[0] && (lines + [line])[1..] == lines[1..] + [line];
      match step(f, lines[0])
      case Err(_) =>
      case Ok(f') => FoldAppends(step, f', lines[1..], line);
    }
  }

  lemma LastOfLonger(lines: seq<string>, line: string, key: string)
    ensures LastValue(lines + [line], key) ==
              if ':' in line && KeyOf(line) == key then Some(ValueOf(line)) else LastValue(lines, key)
  {
    assert (lines + [line])[..|lines|] == lines;
  }

  lemma SetHoldsLast(lines: seq<string>, line: string, f: Fields)
    requires HoldsLast(lines, f) && Readable(line)
    ensures SetField(f, KeyOf(line), ValueOf(line)).Ok?
    ensures HoldsLast(lines + [line], SetField(f, KeyOf(line), ValueOf(line)).value)
  {
    KeysDiffer();
    SwitchExactly(ValueOf(line));
    LastOfLonger(lines, line, "Package");
    LastOfLonger(lines, line, "Installed");
    LastOfLonger(lines, line, "Candidate");
    LastOfLonger(lines, line, "Security");
    LastOfLonger(lines, line, "Held");
    LastOfLonger(lines, line, "Authenticated");
  }

  ghost predicate AllReadable(lines: seq<string>) {
    forall i :: 0 <= i < |lines| ==> Readable(lines[i])
  }

  lemma ReadableLonger(lines: seq<string>, line: string)
    ensures AllReadable(lines + [line]) <==> AllReadable(lines) && Readable(line)
  {
    assert (lines + [line])[|lines|] == line;
    assert forall i :: 0 <= i < |lines| ==> (lines + [line])[i] == lines[i];
  }

  /** The state of a block after its lines: read, if each of them is, and then each key at its last value. */
  ghost predicate ReadSoFar(lines: seq<string>, r: Result<Fields, ParseError>) {
    (r.Ok? <==> AllReadable(lines)) && (r.Ok? ==> HoldsLast(lines, r.value))
  }

  lemma ReadOneMore(lines: seq<string>, line: string, f: Fields)
    requires HoldsLast(lines, f) && AllReadable(lines)
    ensures ReadSoFar(lines + [line], ReadField(f, line))
  {
    ReadableLonger(lines, line);
    LineExactly(f, line);
    if Readable(line) {
      ReadsKeyed(f, line);
      SetHoldsLast(lines, line, f);
    }
  }

  /** A block is read exactly if each of its lines is; the last line of each key decides. */
  lemma {:induction false} BlockExactly(lines: seq<string>)
    ensures ReadSoFar(lines, FoldLines(ReadField, NO_FIELDS, lines))
  {
    if lines != [] {
      var front, line := lines[..|lines| - 1], lines[|lines| - 1];
      assert lines == front + [line];
      BlockExactly(front);
      FoldAppends(ReadField, NO_FIELDS, front, line);
      ReadableLonger(front, line);
      var r := FoldLines(ReadField, NO_FIELDS, front);
      if r.Ok? {
        ReadOneMore(front, line, r.value);
      }
    }
  }

  lemma {:induction false} FoldStops(step: Step, f: Fields, lines: seq<string>, k: nat, e: ParseError)
    requires k < |lines| && forall g :: step(g, lines[k]) == Err(e)
    requires forall i, g :: 0 <= i < k ==> step(g, lines[i]).Ok?
    ensures FoldLines(step, f, lines) == Err(e)
    decreases |lines|
  {
    if k > 0 {
      assert step(f, lines[0]).Ok?;
      FoldStops(step, step(f, lines[0]).value, lines[1..], k - 1, e);
    }
  }

  /** The first line that cannot be read decides the error of its block. */
  lemma FirstFaultDecides(block: string, k: nat)
    requires k < |Lines(block)| && !Readable(Lines(block)[k]) && forall i :: 0 <= i < k ==> Readable(Lines(block)[i])
    ensures ParseBlock(block) == Err(FaultOf(Lines(block)[k]))
  {
    var lines := Lines(block);
    forall g ensures ReadField(g, lines[k]) == Err(FaultOf(lines[k])) {
      LineExactly(g, lines[k]);
    }
    forall i, g | 0 <= i < k ensures ReadField(g, lines[i]).Ok? {
      LineExactly(g, lines[i]);
    }
    FoldStops(ReadField, NO_FIELDS, lines, k, FaultOf(lines[k]));
  }

  ghost predicate Given(lines: seq<string>, key: string) {
    LastValue(lines, key).Some? && LastValue(lines, key).value != ""
  }

  /** A candidate that may be trusted is a security update exactly if the switch says so; all others are unknown. */
  ghost predicate Classified(lines: seq<string>, record: PackageRecord) {
    match record.classification
    case Unknown => !record.authenticated || !Given(lines, "Candidate")
    case c =>
      && record.authenticated && Given(lines, "Candidate")
      && SwitchIs(LastValue(lines, "Security"), false, c == Security)
  }

  ghost predicate RecordIs(lines: seq<string>, record: PackageRecord) {
    && LastValue(lines, "Package") == Some(record.package) && LastValue(lines, "Installed") == Some(record.installed)
    && record.candidate == (if Given(lines, "Candidate") then LastValue(lines, "Candidate") else None)
    && SwitchIs(LastValue(lines, "Held"), false, record.held)
    && SwitchIs(LastValue(lines, "Authenticated"), true, record.authenticated)
    && Classified(lines, record)
  }

  lemma BuiltExactly(lines: seq<string>, f: Fields)
    requires HoldsLast(lines, f)
    ensures var r := BuildRecord(f);
            && (r == Err(MissingField("Package")) <==> !Given(lines, "Package"))
            && (r == Err(MissingField("Installed")) <==> Given(lines, "Package") && !Given(lines, "Installed"))
            && (r.Ok? <==> Given(lines, "Package") && Given(lines, "Installed"))
            && (r.Ok? ==> RecordIs(lines, r.value))
  {
    KeysDiffer();
  }

  /** A block becomes a record exactly if all its lines can be read and a package and an installed version are given. */
  lemma RecordExactly(block: string)
    ensures var lines, r := Lines(block), ParseBlock(block);
            var readable := AllReadable(lines);
            && (r.Ok? <==> readable && Given(lines, "Package") && Given(lines, "Installed"))
            && (r.Ok? ==> RecordIs(lines, r.value))
            && (readable && !Given(lines, "Package") ==> r == Err(MissingField("Package")))
            && (readable && Given(lines, "Package") && !Given(lines, "Installed") ==>
                  r == Err(MissingField("Installed")))
  {
    BlockExactly(Lines(block));
    var r := FoldLines(ReadField, NO_FIELDS, Lines(block));
    if r.Ok? {
      BuiltExactly(Lines(block), r.value);
    }
  }
}
