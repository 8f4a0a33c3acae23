/** The agent's printer of an apt listing and the server's parser of what it prints. */
module Apt {
  import opened Wrappers
  import opened Text

  // ---- the printer ----

  /** The fields that the agent extracts from one line of `apt list --upgradable`. */
  datatype Entry = Entry(package: string, installed: string, candidate: string, security: bool)

  const MARKER := "[upgradable from: "

  function WithoutTrailing(s: string, c: char): (r: string)
    ensures r <= s
  {
    if s != [] && s[|s| - 1] == c then WithoutTrailing(s[..|s| - 1], c) else s
  }

  /** `None` for a line that the printer drops. */
  function ReadLine(raw: string): (r: Option<Entry>) {
    var line := Trim(raw);
    var fields := Words(line);
    var pieces := Split(line, MARKER);
    if line == [] || "Listing" <= line then None
    else
      match SplitOnce(line, "/")
      case None => None
      case Some((package, _)) =>
        if |fields| < 2 || |pieces| < 2 then None
        else Some(Entry(package, WithoutTrailing(pieces[1], ']'), fields[1], Contains(line, "security")))
  }

  function Entries(lines: seq<string>): (entries: seq<Entry>) {
    if lines == [] then []
    else
      match ReadLine(lines[0])
      case None => Entries(lines[1..])
      case Some(e) => [e] + Entries(lines[1..])
  }

  function FieldLines(e: Entry): (lines: seq<string>) {
    ["Package: " + e.package,
     "Installed: " + e.installed,
     "Candidate: " + e.candidate,
     "Security: " + (if e.security then "yes" else "no"),
     "Held: no",
     "Authenticated: yes"]
  }

  function Blocks(entries: seq<Entry>): (blocks: seq<string>) {
    if entries == [] then [] else [Join(FieldLines(entries[0]), "\n")] + Blocks(entries[1..])
  }

  function NormalizeAptList(output: string): (r: string) {
    Join(Blocks(Entries(Lines(output))), "\n\n")
  }

  // ---- the parser ----

  datatype Classification = Security | Normal | Unknown

  datatype PackageRecord = PackageRecord(
    package: string, installed: string, candidate: Option<string>,
    classification: Classification, held: bool, authenticated: bool)

  datatype ParseError = MalformedLine(line: string) | MissingField(name: string) | InvalidBoolean(value: string)

  /** The local variables of the parser while it reads a block. */
  datatype Fields = Fields(
    package: Option<string>, installed: Option<string>, candidate: Option<string>,
    security: bool, held: bool, authenticated: bool)

  const NO_FIELDS := Fields(None, None, None, false, false, true)

  function Lowercase(s: string): (r: string) {
    if s == [] then []
    else [if 'A' <= s[0] <= 'Z' then ((s[0] as int) + 32) as char else s[0]] + Lowercase(s[1..])
  }

  function ParseBool(value: string): (r: Result<bool, ParseError>) {
    var lower := Lowercase(value);
    if lower in {"yes", "true", "1"} then Ok(true)
    else if lower in {"no", "false", "0"} then Ok(false)
    else Err(InvalidBoolean(value))
  }

  function SetField(f: Fields, key: string, value: string): (r: Result<Fields, ParseError>) {
    if key == "Package" then Ok(f.(package := Some(value)))
    else if key == "Installed" then Ok(f.(installed := Some(value)))
    else if key == "Candidate" then Ok(f.(candidate := if value == [] then None else Some(value)))
    else if key == "Security" || key == "Held" || key == "Authenticated" then
      match ParseBool(value)
      case Err(e) => Err(e)
      case Ok(b) =>
        Ok(if key == "Security" then f.(security := b)
           else if key == "Held" then f.(held := b)
           else f.(authenticated := b))
    else Ok(f)
  }

  function ReadField(f: Fields, line: string): (r: Result<Fields, ParseError>) {
    match SplitOnce(line, ":")
    case None => Err(MalformedLine(line))
    case Some((key, value)) => SetField(f, Trim(key), Trim(value))
  }

  /** Feeds lines to a step function until one of them is rejected. */
  function FoldLines(step: (Fields, string) -> Result<Fields, ParseError>, f: Fields, lines: seq<string>)
    : (r: Result<Fields, ParseError>)
    decreases |lines|
  {
    if lines == [] then Ok(f)
    else
      match step(f, lines[0])
      case Err(e) => Err(e)
      case Ok(f') => FoldLines(step, f', lines[1..])
  }

  function Present(value: Option<string>): (r: bool) {
    value.Some? && value.value != []
  }

  function Classify(f: Fields): (c: Classification) {
    if !f.authenticated || f.candidate.None? then Unknown else if f.security then Security else Normal
  }

  function BuildRecord(f: Fields): (r: Result<PackageRecord, ParseError>) {
    if !Present(f.package) then Err(MissingField("Package"))
    else if !Present(f.installed) then Err(MissingField("Installed"))
    else Ok(PackageRecord(f.package.value, f.installed.value, f.candidate, Classify(f), f.held, f.authenticated))
  }

  function ParseBlock(block: string): (r: Result<PackageRecord, ParseError>) {
    match FoldLines(ReadField, NO_FIELDS, Lines(block))
    case Err(e) => Err(e)
    case Ok(f) => BuildRecord(f)
  }

  function ParseBlocks(blocks: seq<string>): (r: Result<seq<PackageRecord>, ParseError>) {
    if blocks == [] then Ok([])
    else if Trim(blocks[0]) == [] then ParseBlocks(blocks[1..])
    else
      match ParseBlock(blocks[0])
      case Err(e) => Err(e)
      case Ok(record) =>
        match ParseBlocks(blocks[1..])
        case Err(e) => Err(e)
        case Ok(records) => Ok([record] + records)
  }

  function Parsed(output: string): (r: Result<seq<PackageRecord>, ParseError>) {
    ParseBlocks(Split(output, "\n\n"))
  }

  /** Results read so far, followed by the outcome of the rest. */
  function Prepend(records: seq<PackageRecord>, r: Result<seq<PackageRecord>, ParseError>)
    : (all: Result<seq<PackageRecord>, ParseError>)
  {
    match r
    case Err(e) => Err(e)
    case Ok(rest) => Ok(records + rest)
  }

  lemma PrependNothing(r: Result<seq<PackageRecord>, ParseError>)
    ensures Prepend([], r) == r
  {
    if r.Ok? {
      assert [] + r.value == r.value;
    }
  }

  lemma PrependOne(records: seq<PackageRecord>, record: PackageRecord, rest: Result<seq<PackageRecord>, ParseError>)
    ensures Prepend(records, Prepend([record], rest)) == Prepend(records + [record], rest)
  {
    if rest.Ok? {
      assert records + ([record] + rest.value) == (records + [record]) + rest.value;
    }
  }

  lemma BlocksFrom(blocks: seq<string>, k: nat)
    requires k < |blocks|
    ensures ParseBlocks(blocks[k..]) ==
              if Trim(blocks[k]) == [] then ParseBlocks(blocks[k + 1..])
              else if ParseBlock(blocks[k]).Err? then Err(ParseBlock(blocks[k]).error)
              else Prepend([ParseBlock(blocks[k]).value], ParseBlocks(blocks[k + 1..]))
  {
    assert blocks[k..][0] == blocks[k] && blocks[k..][1..] == blocks[k + 1..];
  }

  /** The inner loop: each line updates one of the field variables. */
  method ReadBlock(block: string) returns (r: Result<PackageRecord, ParseError>)
    ensures r == ParseBlock(block)
  {
    var f := NO_FIELDS;
    var lines := Lines(block);
    for n := 0 to |lines|
      invariant FoldLines(ReadField, NO_FIELDS, lines) == FoldLines(ReadField, f, lines[n..])
    {
      var step := ReadField(f, lines[n]);
      assert lines[n..][1..] == lines[n + 1..];
      if step.Err? {
        return Err(step.error);
      }
      f := step.value;
    }
    r := BuildRecord(f);
  }

  /** The outer loop: each block that is not blank pushes one record. */
  method ReadBlocks(blocks: seq<string>) returns (r: Result<seq<PackageRecord>, ParseError>)
    ensures r == ParseBlocks(blocks)
  {
    var records: seq<PackageRecord> := [];
    assert blocks[0..] == blocks;
    PrependNothing(ParseBlocks(blocks));
    for k := 0 to |blocks|
      invariant ParseBlocks(blocks) == Prepend(records, ParseBlocks(blocks[k..]))
    {
      BlocksFrom(blocks, k);
      if Trim(blocks[k]) != [] {
        var record := ReadBlock(blocks[k]);
        if record.Err? {
          return Err(record.error);
        }
        PrependOne(records, record.value, ParseBlocks(blocks[k + 1..]));
        records := records + [record.value];
      }
    }
    assert blocks[|blocks|..] == [] && records + [] == records;
    r := Ok(records);
  }

  method ParseOutput(output: string) returns (r: Result<seq<PackageRecord>, ParseError>)
    ensures r == Parsed(output)
  {
    r := ReadBlocks(Split(output, "\n\n"));
  }
}
