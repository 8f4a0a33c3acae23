/** The browser's incremental reader of server-sent events. */
module EventStream {
  import opened Wrappers
  import opened Text

  const BOUNDARY := "\n\n"

  /** Frames handed on, and the text that waits for more input. */
  datatype Parsed = Parsed(frames: seq<string>, rest: string)

  function Consume(buffer: string): (p: Parsed)
    decreases |buffer|
  {
    match Find(buffer, BOUNDARY)
    case None => Parsed([], buffer)
    case Some(i) =>
      var later := Consume(buffer[i + 2..]);
      Parsed([buffer[..i]] + later.frames, later.rest)
  }

  /** `replaceAll("\r\n", "\n")` on one chunk. */
  function Normalized(chunk: string): (r: string) {
    if chunk == [] then []
    else if |chunk| >= 2 && chunk[0] == '\r' && chunk[1] == '\n' then "\n" + Normalized(chunk[2..])
    else [chunk[0]] + Normalized(chunk[1..])
  }

  /** What the reader has after the chunks, each normalised on its own. */
  function Streamed(chunks: seq<string>): (p: Parsed) {
    if chunks == [] then Parsed([], [])
    else
      var before := Streamed(chunks[..|chunks| - 1]);
      var now := Consume(before.rest + Normalized(chunks[|chunks| - 1]));
      Parsed(before.frames + now.frames, now.rest)
  }

  function Concat(chunks: seq<string>): (s: string) {
    if chunks == [] then [] else chunks[0] + Concat(chunks[1..])
  }

  // ---- the loops of the reader; a frame is handed on by appending it to `frames` ----

  /** Frames handed on so far, followed by those still in the buffer. */
  function Behind(frames: seq<string>, p: Parsed): (r: Parsed) {
    Parsed(frames + p.frames, p.rest)
  }

  lemma NextFrame(frames: seq<string>, buffer: string, i: nat)
    requires i + 2 <= |buffer| && Find(buffer, BOUNDARY) == Some(i)
    ensures Behind(frames, Consume(buffer)) == Behind(frames + [buffer[..i]], Consume(buffer[i + 2..]))
  {
    ConsumeFrame(buffer, i);
    FramesAssociate(frames, [buffer[..i]], Consume(buffer[i + 2..]).frames);
  }

  lemma ConsumeFrame(buffer: string, i: nat)
    requires i + 2 <= |buffer| && Find(buffer, BOUNDARY) == Some(i)
    ensures Consume(buffer) == Behind([buffer[..i]], Consume(buffer[i + 2..]))
  {
  }

  lemma LastFrame(frames: seq<string>, buffer: string)
    requires Find(buffer, BOUNDARY).None?
    ensures Behind(frames, Consume(buffer)) == Parsed(frames, buffer)
  {
  }

  method ConsumeEventFrames(input: string) returns (frames: seq<string>, buffer: string)
    ensures Parsed(frames, buffer) == Consume(input)
  {
    frames, buffer := [], input;
    var boundary := Find(buffer, BOUNDARY);
    while boundary.Some?
      invariant boundary == Find(buffer, BOUNDARY)
      invariant Consume(input) == Behind(frames, Consume(buffer))
      decreases |buffer|
    {
      NextFrame(frames, buffer, boundary.value);
      var frame := buffer[..boundary.value];
      buffer := buffer[boundary.value + 2..];
      frames := frames + [frame];
      boundary := Find(buffer, BOUNDARY);
    }
    LastFrame(frames, buffer);
  }

  method ReadChunks(chunks: seq<string>) returns (frames: seq<string>, buffer: string)
    ensures Parsed(frames, buffer) == Streamed(chunks)
  {
    frames, buffer := [], "";
    for k := 0 to |chunks|
      invariant Parsed(frames, buffer) == Streamed(chunks[..k])
    {
      assert chunks[..k + 1][..k] == chunks[..k];
      var handed: seq<string>;
      handed, buffer := ConsumeEventFrames(buffer + Normalized(chunks[k]));
      frames := frames + handed;
    }
    assert chunks[..|chunks|] == chunks;
  }

  // ---- streaming against batch ----

  lemma FindInLonger(a: string, b: string, i: nat)
    requires Find(a, BOUNDARY) == Some(i)
    ensures Find(a + b, BOUNDARY) == Some(i)
  {
    var s := a + b;
    assert s[i..i + 2] == a[i..i + 2];
    forall j: nat | j < i ensures !Occurs(s, j, BOUNDARY) {
      assert !Occurs(a, j, BOUNDARY);
      assert s[j..j + 2] == a[j..j + 2];
    }
    FindIs(s, BOUNDARY, i);
  }

  /** Reading on where the first part stopped gives what reading both parts at once gives. */
  lemma {:induction false} ConsumeAppends(a: string, b: string)
    ensures var first := Consume(a);
            var second := Consume(first.rest + b);
            Consume(a + b) == Parsed(first.frames + second.frames, second.rest)
    decreases |a|
  {
    if Find(a, BOUNDARY).Some? {
      var i := Find(a, BOUNDARY).value;
      FindInLonger(a, b, i);
      TailOfConcat(a, b, i + 2);
      assert (a + b)[..i] == a[..i];
      ConsumeAppends(a[i + 2..], b);
      FramesAssociate([a[..i]], Consume(a[i + 2..]).frames, Consume(Consume(a[i + 2..]).rest + b).frames);
    }
  }

  lemma FramesAssociate(first: seq<string>, middle: seq<string>, last: seq<string>)
    ensures first + (middle + last) == (first + middle) + last
  {
  }

  /** The chunks after normalisation. */
  function NormalizedAll(chunks: seq<string>): (s: string) {
    if chunks == [] then [] else Normalized(chunks[0]) + NormalizedAll(chunks[1..])
  }

  lemma {:induction false} NormalizedAllAppends(chunks: seq<string>, last: string)
    ensures NormalizedAll(chunks + [last]) == NormalizedAll(chunks) + Normalized(last)
  {
    if chunks != [] {
      NormalizedAllAppends(chunks[1..], last);
      assert (chunks + [last])[1..] == chunks[1..] + [last];
    }
  }

  lemma {:induction false} StreamedIsConsumed(chunks: seq<string>)
    ensures Streamed(chunks) == Consume(NormalizedAll(chunks))
  {
    if chunks != [] {
      var shorter, last := chunks[..|chunks| - 1], chunks[|chunks| - 1];
      StreamedIsConsumed(shorter);
      ConsumeAppends(NormalizedAll(shorter), Normalized(last));
      NormalizedAllAppends(shorter, last);
      assert chunks == shorter + [last];
    } else {
      assert Find("", BOUNDARY).None?;
    }
  }

  /** Frames and leftover determine the text that was read. */
  function Rebuilt(p: Parsed): (s: string)
    decreases |p.frames|
  {
    if p.frames == [] then p.rest else p.frames[0] + BOUNDARY + Rebuilt(Parsed(p.frames[1..], p.rest))
  }

  lemma {:induction false} RebuiltIsText(s: string)
    ensures Rebuilt(Consume(s)) == s
    decreases |s|
  {
    match Find(s, BOUNDARY)
    case None =>
    case Some(i) =>
      RebuiltIsText(s[i + 2..]);
      var p := Consume(s);
      assert p.frames[1..] == Consume(s[i + 2..]).frames;
      assert s == s[..i] + s[i..i + 2] + s[i + 2..];
  }

  /** The first boundary behind a frame is the one that ends it, and none is left over. */
  ghost predicate CutAtBoundaries(p: Parsed) {
    && Find(p.rest, BOUNDARY).None?
    && forall i :: 0 <= i < |p.frames| ==> EndsFrame(p.frames[i])
  }

  ghost predicate EndsFrame(frame: string) {
    forall j: nat :: j < |frame| ==> !Occurs(frame + BOUNDARY, j, BOUNDARY)
  }

  lemma BoundaryAt(s: string, i: nat)
    ensures Occurs(s, i, BOUNDARY) <==> i + 1 < |s| && s[i] == '\n' && s[i + 1] == '\n'
  {
    if i + 1 < |s| {
      assert s[i..i + 2] == [s[i], s[i + 1]];
    }
  }

  lemma FrameEnds(s: string, i: nat)
    requires Find(s, BOUNDARY) == Some(i)
    ensures i + 2 <= |s| && EndsFrame(s[..i])
  {
    BoundaryAt(s, i);
    FirstEnds(s, i, s[..i]);
  }

  lemma FirstEnds(s: string, i: nat, frame: string)
    requires i + 1 < |s| && s[i] == '\n' && frame == s[..i]
    requires forall j: nat :: j < i ==> !Occurs(s, j, BOUNDARY)
    ensures EndsFrame(frame)
  {
    forall j: nat | j < |frame| ensures !Occurs(frame + BOUNDARY, j, BOUNDARY) {
      NoEarlierEnd(s, i, j, frame + BOUNDARY);
    }
  }

  lemma NoEarlierEnd(s: string, i: nat, j: nat, cut: string)
    requires j < i && i + 1 < |s| && s[i] == '\n' && !Occurs(s, j, BOUNDARY)
    requires |cut| == i + 2 && (forall k :: 0 <= k < i ==> cut[k] == s[k]) && cut[i] == '\n'
    ensures !Occurs(cut, j, BOUNDARY)
  {
    BoundaryAt(s, j);
    BoundaryAt(cut, j);
  }

  lemma CutsGrow(frame: string, p: Parsed)
    requires EndsFrame(frame) && CutAtBoundaries(p)
    ensures CutAtBoundaries(Behind([frame], p))
  {
  }

  lemma {:induction false} ConsumeCuts(s: string)
    ensures CutAtBoundaries(Consume(s))
    decreases |s|
  {
    match Find(s, BOUNDARY)
    case None =>
    case Some(i) =>
      FrameEnds(s, i);
      ConsumeCuts(s[i + 2..]);
      CutsGrow(s[..i], Consume(s[i + 2..]));
      ConsumeFrame(s, i);
  }

  lemma FindFrame(frame: string, rest: string)
    requires EndsFrame(frame)
    ensures Find(frame + BOUNDARY + rest, BOUNDARY) == Some(|frame|)
  {
    var cut := frame + BOUNDARY;
    assert cut[|frame|..|frame| + 2] == BOUNDARY;
    FindIs(cut, BOUNDARY, |frame|);
    FindInLonger(cut, rest, |frame|);
  }

  lemma {:induction false} CutsAreConsumed(p: Parsed)
    requires CutAtBoundaries(p)
    ensures Consume(Rebuilt(p)) == p
    decreases |p.frames|
  {
    if p.frames != [] {
      var later := Parsed(p.frames[1..], p.rest);
      CutsAreConsumed(later);
      assert EndsFrame(p.frames[0]);
      FindFrame(p.frames[0], Rebuilt(later));
      var s := Rebuilt(p);
      assert s[..|p.frames[0]|] == p.frames[0] && s[|p.frames[0]| + 2..] == Rebuilt(later);
      assert p.frames == [p.frames[0]] + p.frames[1..];
    }
  }

  /** Frames and leftover are the only ones that give the text back with every cut at its first boundary. */
  lemma ConsumeExactly(s: string, p: Parsed)
    ensures Consume(s) == p <==> Rebuilt(p) == s && CutAtBoundaries(p)
  {
    RebuiltIsText(s);
    ConsumeCuts(s);
    if Rebuilt(p) == s && CutAtBoundaries(p) {
      CutsAreConsumed(p);
    }
  }

  const PAIR := "\r\n"

  lemma PairAt(s: string, i: nat)
    ensures Occurs(s, i, PAIR) <==> StartsPair(s, i)
  {
    if i + 1 < |s| {
      assert s[i..i + 2] == [s[i], s[i + 1]];
    }
  }

  predicate StartsPair(s: string, i: nat) {
    i + 1 < |s| && s[i] == '\r' && s[i + 1] == '\n'
  }

  lemma NormalizedStep(s: string)
    requires s != [] && !StartsPair(s, 0)
    ensures Normalized(s) == [s[0]] + Normalized(s[1..])
  {
  }

  lemma {:induction false} PlainIsKept(s: string, i: nat)
    requires i <= |s| && forall j: nat :: j < i ==> !StartsPair(s, j)
    ensures Normalized(s) == s[..i] + Normalized(s[i..])
  {
    if i > 0 {
      NormalizedStep(s);
      assert forall j: nat :: StartsPair(s[1..], j) <==> StartsPair(s, j + 1);
      PlainIsKept(s[1..], i - 1);
      assert s[1..][i - 1..] == s[i..];
      KeptAppends(s, i, Normalized(s[i..]));
    } else {
      assert s[..0] == [] && s[0..] == s;
    }
  }

  lemma KeptAppends(s: string, i: nat, rest: string)
    requires 0 < i <= |s|
    ensures [s[0]] + (s[1..][..i - 1] + rest) == s[..i] + rest
  {
  }

  lemma NoPairBefore(s: string, i: nat)
    requires forall j: nat :: j < i ==> !Occurs(s, j, PAIR)
    ensures forall j: nat :: j < i ==> !StartsPair(s, j)
  {
    forall j: nat | j < i ensures !StartsPair(s, j) {
      PairAt(s, j);
    }
  }

  lemma NothingToReplace(s: string)
    requires Find(s, PAIR).None?
    ensures Normalized(s) == s
  {
    NoPairBefore(s, |s|);
    PlainIsKept(s, |s|);
    assert s[|s|..] == [] && s[..|s|] == s;
  }

  lemma FirstReplaced(s: string, i: nat)
    requires Find(s, PAIR) == Some(i)
    ensures i + 2 <= |s| && Normalized(s) == s[..i] + "\n" + Normalized(s[i + 2..])
  {
    PairAt(s, i);
    NoPairBefore(s, i);
    PlainIsKept(s, i);
    PairReplaced(s[i..]);
    assert s[i..][2..] == s[i + 2..];
    HeadAssociates(s[..i], "\n", Normalized(s[i + 2..]));
  }

  lemma PairReplaced(s: string)
    requires StartsPair(s, 0)
    ensures Normalized(s) == "\n" + Normalized(s[2..])
  {
  }

  lemma JoinStep(first: string, rest: seq<string>)
    requires rest != []
    ensures Join([first] + rest, "\n") == first + "\n" + Join(rest, "\n")
  {
    assert ([first] + rest)[1..] == rest;
  }

  /** Normalising a chunk is taking it apart at its pairs and joining the pieces with line feeds. */
  lemma {:induction false} NormalizedExactly(s: string)
    ensures Normalized(s) == Join(Split(s, PAIR), "\n")
    decreases |s|
  {
    match Find(s, PAIR)
    case None => NothingToReplace(s);
    case Some(i) =>
      FirstReplaced(s, i);
      NormalizedExactly(s[i + 2..]);
      JoinStep(s[..i], Split(s[i + 2..], PAIR));
  }

  /** A `\r\n` pair lies across this cut. */
  predicate CutsPair(a: string, b: string) {
    a != [] && b != [] && a[|a| - 1] == '\r' && b[0] == '\n'
  }

  lemma {:induction false} NormalizedAcross(a: string, b: string)
    ensures !CutsPair(a, b) ==> Normalized(a + b) == Normalized(a) + Normalized(b)
    ensures CutsPair(a, b) ==> |Normalized(a + b)| + 1 == |Normalized(a)| + |Normalized(b)|
    decreases |a|
  {
    if a == [] {
      assert a + b == b;
    } else if |a| == 1 {
      NormalizedOne(a[0], b);
      assert a == [a[0]];
    } else {
      var k := if a[0] == '\r' && a[1] == '\n' then 2 else 1;
      NormalizedAcross(a[k..], b);
      TailOfConcat(a, b, k);
      HeadAssociates(if k == 2 then "\n" else [a[0]], Normalized(a[k..]), Normalized(b));
      assert CutsPair(a[k..], b) == CutsPair(a, b);
    }
  }

  lemma TailOfConcat(a: string, b: string, k: nat)
    requires k <= |a|
    ensures (a + b)[k..] == a[k..] + b
  {
  }

  lemma HeadAssociates(head: string, middle: string, last: string)
    ensures head + (middle + last) == (head + middle) + last
  {
  }

  lemma NormalizedOne(c: char, s: string)
    ensures !CutsPair([c], s) ==> Normalized([c] + s) == Normalized([c]) + Normalized(s)
    ensures CutsPair([c], s) ==> |Normalized([c] + s)| + 1 == |Normalized([c])| + |Normalized(s)|
  {
    assert ([c] + s)[1..] == s && [c][1..] == [];
    assert Normalized([c]) == [c];
    if CutsPair([c], s) {
      assert ([c] + s)[2..] == s[1..];
    }
  }

  /** Some chunk boundary falls between a carriage return and its line feed. */
  predicate CutsSomePair(chunks: seq<string>) {
    chunks != [] && (CutsPair(chunks[0], Concat(chunks[1..])) || CutsSomePair(chunks[1..]))
  }

  lemma {:induction false} NormalizedChunkwise(chunks: seq<string>)
    ensures |NormalizedAll(chunks)| >= |Normalized(Concat(chunks))|
    ensures !CutsSomePair(chunks) ==> NormalizedAll(chunks) == Normalized(Concat(chunks))
    ensures CutsSomePair(chunks) ==> |NormalizedAll(chunks)| > |Normalized(Concat(chunks))|
  {
    if chunks != [] {
      NormalizedChunkwise(chunks[1..]);
      NormalizedAcross(chunks[0], Concat(chunks[1..]));
    }
  }

  /**
   Chunked reading hands on the same frames with the same leftover as one read of the whole text
   exactly when no chunk boundary separates a carriage return from its line feed.
   */
  lemma StreamingIsBatchExactly(chunks: seq<string>)
    ensures Streamed(chunks) == Consume(Normalized(Concat(chunks))) <==> !CutsSomePair(chunks)
  {
    StreamedIsConsumed(chunks);
    NormalizedChunkwise(chunks);
    RebuiltIsText(NormalizedAll(chunks));
    RebuiltIsText(Normalized(Concat(chunks)));
  }

  lemma {:induction false} NoCarriageReturnNoCut(chunks: seq<string>)
    requires forall i :: 0 <= i < |chunks| ==> '\r' !in chunks[i]
    ensures !CutsSomePair(chunks)
  {
    if chunks != [] {
      NoCarriageReturnNoCut(chunks[1..]);
    }
  }

  /** In particular for every text without carriage returns, however it is cut. */
  lemma StreamingIsBatch(chunks: seq<string>)
    requires '\r' !in Concat(chunks)
    ensures Streamed(chunks) == Consume(Normalized(Concat(chunks)))
  {
    ChunksOfConcat(chunks);
    NoCarriageReturnNoCut(chunks);
    StreamingIsBatchExactly(chunks);
  }

  lemma {:induction false} ChunksOfConcat(chunks: seq<string>)
    requires '\r' !in Concat(chunks)
    ensures forall i :: 0 <= i < |chunks| ==> '\r' !in chunks[i]
  {
    if chunks != [] {
      ChunksOfConcat(chunks[1..]);
      assert forall i :: 0 < i < |chunks| ==> chunks[i] == chunks[1..][i - 1];
    }
  }

  /** The condition is needed: an event whose last line break is cut in two. */
  lemma CutPairDiffers()
    ensures var chunks := ["event: e\r\ndata: 1\r\n\r", "\n"];
            && CutsSomePair(chunks)
            && Streamed(chunks) != Consume(Normalized(Concat(chunks)))
  {
    var chunks := ["event: e\r\ndata: 1\r\n\r", "\n"];
    assert chunks[1..] == ["\n"] && ["\n"][1..] == [];
    assert Concat(["\n"]) == "\n" + Concat([]);
    assert CutsPair(chunks[0], "\n");
    StreamingIsBatchExactly(chunks);
  }
}
