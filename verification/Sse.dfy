/** Server-sent events on the wire: the gateway's printer and the client's chunked parser. */
module Sse {
  import opened Options
  import Text

  datatype Frame = Frame(id: Option<string>, event: Option<string>, data: string)

  // ------------------------------------------------ cutting a buffer at blank lines

  /** The length of an empty line's two line ends at `i`, each with or without a
      carriage return; 0 if there is none. */
  function BlankLine(s: string, i: nat): nat {
    var a := if i < |s| && s[i] == '\r' then i + 1 else i;
    if !(a < |s| && s[a] == '\n') then 0
    else
      var b := if a + 1 < |s| && s[a + 1] == '\r' then a + 2 else a + 1;
      if b < |s| && s[b] == '\n' then b + 1 - i else 0
  }

  /** The first blank line at or after `i`. */
  function FirstBlank(s: string, i: nat): (r: Option<nat>)
    ensures r.Some? ==> i <= r.value < |s| && BlankLine(s, r.value) > 0 && forall j :: i <= j < r.value ==>
      BlankLine(s, j) == 0
    ensures r.None? ==> forall j :: i <= j < |s| ==> BlankLine(s, j) == 0
    decreases |s| - i
  {
    if i >= |s| then None else if BlankLine(s, i) > 0 then Some(i) else FirstBlank(s, i + 1)
  }

  /** The complete blocks of a buffer and what is left over. */
  datatype Cut = Cut(blocks: seq<string>, rest: string)

  lemma BlankFits(s: string, i: nat)
    ensures BlankLine(s, i) > 0 ==> i + BlankLine(s, i) <= |s| && BlankLine(s, i) >= 2
  {
  }

  function Split(s: string): Cut
    decreases |s|
  {
    match FirstBlank(s, 0)
    case None => Cut([], s)
    case Some(i) =>
      BlankFits(s, i);
      var c := Split(s[i + BlankLine(s, i)..]);
      Cut([s[..i]] + c.blocks, c.rest)
  }

  /** More text does not change a blank line that is complete. */
  lemma BlankStays(s: string, t: string, i: nat)
    requires BlankLine(s, i) > 0
    ensures BlankLine(s + t, i) == BlankLine(s, i)
  {
  }

  /** Nor does it complete one in front of it. */
  lemma NoneBefore(s: string, t: string, j: nat, i: nat)
    requires j < i && BlankLine(s, j) == 0 && BlankLine(s, i) > 0
    ensures BlankLine(s + t, j) == 0
  {
    BlankFits(s, i);
  }

  lemma FirstBlankStays(s: string, t: string)
    requires FirstBlank(s, 0).Some?
    ensures FirstBlank(s + t, 0) == FirstBlank(s, 0)
  {
    var i := FirstBlank(s, 0).value;
    BlankStays(s, t, i);
    forall j | 0 <= j < i ensures BlankLine(s + t, j) == 0 {
      NoneBefore(s, t, j, i);
    }
    FirstIs(s + t, 0, i);
  }

  lemma {:induction false} FirstIs(s: string, from: nat, i: nat)
    requires from <= i < |s| && BlankLine(s, i) > 0 && forall j :: from <= j < i ==> BlankLine(s, j) == 0
    ensures FirstBlank(s, from) == Some(i)
    decreases i - from
  {
    if from < i {
      FirstIs(s, from + 1, i);
    }
  }

  /** Cutting in two steps: what is left over is cut together with what comes next. */
  lemma {:induction false} SplitInSteps(s: string, t: string)
    ensures var c := Split(s);
            var d := Split(c.rest + t);
            Split(s + t) == Cut(c.blocks + d.blocks, d.rest)
    decreases |s|
  {
    hide BlankLine, FirstBlank, Split;
    if FirstBlank(s, 0).Some? {
      var i := FirstBlank(s, 0).value;
      var n := BlankLine(s, i);
      BlankFits(s, i);
      FirstBlankStays(s, t);
      BlankStays(s, t, i);
      SplitAt(s, i);
      SplitAt(s + t, i);
      assert (s + t)[..i] == s[..i];
      assert (s + t)[i + n..] == s[i + n..] + t;
      SplitInSteps(s[i + n..], t);
      CutsJoin([s[..i]], Split(s[i + n..]).blocks, Split(Split(s[i + n..]).rest + t).blocks);
    } else {
      SplitNone(s);
    }
  }

  lemma CutsJoin(a: seq<string>, b: seq<string>, c: seq<string>)
    ensures a + (b + c) == (a + b) + c
  {
  }

  lemma SplitAt(s: string, i: nat)
    requires FirstBlank(s, 0) == Some(i) && i + BlankLine(s, i) <= |s|
    ensures var c := Split(s[i + BlankLine(s, i)..]);
            Split(s) == Cut([s[..i]] + c.blocks, c.rest)
  {
    hide BlankLine, FirstBlank;
  }

  lemma SplitNone(s: string)
    requires FirstBlank(s, 0) == None
    ensures Split(s) == Cut([], s)
  {
    hide BlankLine, FirstBlank;
  }

  // ------------------------------------------------ one frame

  /** The position of `c`, or the length if it does not occur. */
  function IndexOf(s: string, c: char): (i: nat)
    ensures i <= |s| && (forall j :: 0 <= j < i ==> s[j] != c) && (i < |s| ==> s[i] == c)
  {
    if s == [] || s[0] == c then 0 else 1 + IndexOf(s[1..], c)
  }

  /** Lines end in a line feed, with or without a carriage return before it. */
  function Lines(s: string): seq<string>
    decreases |s|
  {
    var i := IndexOf(s, '\n');
    if i == |s| then [s]
    else [if i > 0 && s[i - 1] == '\r' then s[..i - 1] else s[..i]] + Lines(s[i + 1..])
  }

  /** What has been read of a frame so far. */
  datatype Fields = Fields(id: Option<string>, event: Option<string>, data: seq<string>)

  const NoFields := Fields(None, None, [])

  function FieldOf(line: string): string {
    line[..IndexOf(line, ':')]
  }

  /** The text behind the colon without one leading space; empty without a colon. */
  function ValueOf(line: string): string {
    var i := IndexOf(line, ':');
    if i == |line| then ""
    else if i + 1 < |line| && line[i + 1] == ' ' then line[i + 2..] else line[i + 1..]
  }

  function ReadLine(f: Fields, line: string): Fields {
    if line == "" || line[0] == ':' then f
    else
      var value := ValueOf(line);
      match FieldOf(line)
      case "id" => f.(id := Some(value))
      case "event" => f.(event := Some(value))
      case "data" => f.(data := f.data + [value])
      case _ => f
  }

  function ReadLines(f: Fields, lines: seq<string>): Fields
    decreases |lines|
  {
    if lines == [] then f else ReadLines(ReadLine(f, lines[0]), lines[1..])
  }

  function Joined(lines: seq<string>): string {
    if lines == [] then "" else if |lines| == 1 then lines[0] else lines[0] + "\n" + Joined(lines[1..])
  }

  function Parse(block: string): Option<Frame> {
    var f := ReadLines(NoFields, Lines(block));
    if f.data == [] then None else Some(Frame(f.id, f.event, Joined(f.data)))
  }

  function ParseAll(blocks: seq<string>): seq<Frame> {
    if blocks == [] then []
    else
      var front := ParseAll(blocks[..|blocks| - 1]);
      match Parse(blocks[|blocks| - 1]) case Some(f) => front + [f] case None => front
  }

  /** The white space and line terminators that trimming strips. */
  predicate IsSpace(c: char) {
    || c in {' ', '\t', '\n', '\r', '\U{000B}', '\U{000C}', '\U{00A0}', '\U{FEFF}', '\U{1680}', '\U{2028}', '\U{2029}'}
    || '\U{2000}' <= c <= '\U{200A}' || c in {'\U{202F}', '\U{205F}', '\U{3000}'}
  }

  predicate IsBlank(s: string) { forall i :: 0 <= i < |s| ==> IsSpace(s[i]) }

  /** The frames of a whole text: its blocks, and an unterminated last one. */
  function Frames(s: string): seq<Frame> {
    var c := Split(s);
    ParseAll(if IsBlank(c.rest) then c.blocks else c.blocks + [c.rest])
  }

  method ParseSSEFrame(block: string) returns (r: Option<Frame>)
    ensures r == Parse(block)
  {
    var lines := Lines(block);
    var id, event, data := None, None, [];
    assert lines[0..] == lines;
    for i := 0 to |lines|
      invariant ReadLines(NoFields, lines) == ReadLines(Fields(id, event, data), lines[i..])
    {
      assert lines[i..][0] == lines[i] && lines[i..][1..] == lines[i + 1..];
      var line := lines[i];
      if line != "" && line[0] != ':' {
        var value := ValueOf(line);
        match FieldOf(line) {
          case "id" => id := Some(value);
          case "event" => event := Some(value);
          case "data" => data := data + [value];
          case _ =>
        }
      }
    }
    return if data == [] then None else Some(Frame(id, event, Joined(data)));
  }

  function Concat(chunks: seq<string>): string {
    if chunks == [] then "" else Concat(chunks[..|chunks| - 1]) + chunks[|chunks| - 1]
  }

  /** Main result: the frames do not depend on how the text was cut into chunks. */
  method ReadSSEStream(chunks: seq<string>) returns (frames: seq<Frame>)
    ensures frames == Frames(Concat(chunks))
  {
    hide Split, Parse, FirstBlank;
    SplitNothing();
    frames := [];
    var buffer := "";
    assert chunks[..0] == [];
    for i := 0 to |chunks|
      invariant buffer == Split(Concat(chunks[..i])).rest
      invariant frames == ParseAll(Split(Concat(chunks[..i])).blocks)
    {
      assert chunks[..i + 1][..i] == chunks[..i];
      SplitInSteps(Concat(chunks[..i]), chunks[i]);
      ghost var before := Split(Concat(chunks[..i])).blocks;
      var cut := Split(buffer + chunks[i]);
      buffer := cut.rest;
      assert before + cut.blocks[..0] == before;
      for k := 0 to |cut.blocks|
        invariant frames == ParseAll(before + cut.blocks[..k])
      {
        var block := cut.blocks[k];
        assert (before + cut.blocks[..k + 1])[..|before| + k] == before + cut.blocks[..k];
        var frame := ParseSSEFrame(block);
        if frame.Some? {
          frames := frames + [frame.value];
        }
      }
      assert cut.blocks[..|cut.blocks|] == cut.blocks;
    }
    assert chunks[..|chunks|] == chunks;
    if !IsBlank(buffer) {
      var frame := ParseSSEFrame(buffer);
      ghost var blocks := Split(Concat(chunks)).blocks;
      assert (blocks + [buffer])[..|blocks|] == blocks;
      if frame.Some? {
        frames := frames + [frame.value];
      }
    }
  }

  lemma SplitNothing()
    ensures Split("") == Cut([], "")
  {
  }

  // ------------------------------------------------ the printer

  /** An event as the gateway prints it; `data` is its JSON text. */
  datatype Envelope = Envelope(sequence: nat, eventType: string, data: string)

  function Body(e: Envelope): string {
    "id: " + Text.Decimal(e.sequence) + "\n" + ("event: " + e.eventType + "\n" + ("data: " + e.data))
  }

  function Print(e: Envelope): string {
    Body(e) + "\n\n"
  }

  function PrintAll(envelopes: seq<Envelope>): string {
    if envelopes == [] then "" else Print(envelopes[0]) + PrintAll(envelopes[1..])
  }

  /** Neither the event type nor the JSON text holds a raw line break. */
  predicate OneLine(s: string) { '\n' !in s && '\r' !in s }

  predicate Clean(e: Envelope) { OneLine(e.eventType) && OneLine(e.data) }

  function FrameOf(e: Envelope): Frame {
    Frame(Some(Text.Decimal(e.sequence)), Some(e.eventType), e.data)
  }

  // ------------------------------------------------ the round trip

  lemma IndexIs(a: string, c: char, b: string)
    requires c !in a
    ensures IndexOf(a + [c] + b, c) == |a|
  {
    var s := a + [c] + b;
    assert s[|a|] == c;
    assert forall j :: 0 <= j < |a| ==> s[j] == a[j];
  }

  lemma LinesOf(a: string, b: string)
    requires OneLine(a)
    ensures Lines(a + "\n" + b) == [a] + Lines(b)
  {
    IndexIs(a, '\n', b);
    var s := a + "\n" + b;
    assert s[..|a|] == a && s[|a| + 1..] == b;
    if |a| > 0 {
      assert s[|a| - 1] == a[|a| - 1];
    }
  }

  lemma LastLine(a: string)
    requires OneLine(a)
    ensures Lines(a) == [a]
  {
  }

  lemma FieldLine(name: string, value: string)
    requires ':' !in name
    ensures FieldOf(name + ": " + value) == name && ValueOf(name + ": " + value) == value
  {
    IndexIs(name, ':', " " + value);
    var line := name + ": " + value;
    assert line == name + ":" + (" " + value);
    assert line[..|name|] == name && line[|name| + 1] == ' ' && line[|name| + 2..] == value;
  }

  lemma DecimalOneLine(n: nat)
    ensures OneLine("id: " + Text.Decimal(n))
  {
    Text.DecimalReads(n);
    var d := Text.Decimal(n);
    forall i | 0 <= i < |d| ensures d[i] != '\n' && d[i] != '\r' {
      assert Text.IsDigit(d[i]);
    }
  }

  lemma ReadThree(a: string, b: string, c: string)
    ensures ReadLines(NoFields, [a, b, c]) == ReadLine(ReadLine(ReadLine(NoFields, a), b), c)
  {
    hide ReadLine;
    var f := ReadLine(NoFields, a);
    var g := ReadLine(f, b);
    assert [a, b, c][1..] == [b, c] && [b, c][1..] == [c] && [c][1..] == [];
    assert ReadLines(g, [c]) == ReadLines(ReadLine(g, c), []);
    assert ReadLines(f, [b, c]) == ReadLines(g, [c]);
  }

  /** A printed body parses back to its id, event and data. */
  lemma ParsePrinted(e: Envelope)
    requires Clean(e)
    ensures Parse(Body(e)) == Some(FrameOf(e))
  {
    hide Lines, FieldOf, ValueOf, Text.Decimal;
    var a, b, c := "id: " + Text.Decimal(e.sequence), "event: " + e.eventType, "data: " + e.data;
    DecimalOneLine(e.sequence);
    LinesOf(a, b + "\n" + c);
    LinesOf(b, c);
    LastLine(c);
    assert Body(e) == a + "\n" + (b + "\n" + c);
    assert [a] + ([b] + [c]) == [a, b, c];
    FieldLine("id", Text.Decimal(e.sequence));
    FieldLine("event", e.eventType);
    FieldLine("data", e.data);
    assert "id" + ": " == "id: " && "event" + ": " == "event: " && "data" + ": " == "data: ";
    ReadThree(a, b, c);
  }

  /** No carriage return, no empty line, no line feed at the end. */
  predicate Solid(s: string) {
    && s != [] && s[|s| - 1] != '\n' && '\r' !in s
    && forall i :: 0 <= i < |s| - 1 ==> !(s[i] == '\n' && s[i + 1] == '\n')
  }

  lemma SolidJoin(a: string, b: string)
    requires OneLine(a) && a != [] && Solid(b) && b[0] != '\n'
    ensures Solid(a + "\n" + b) && (a + "\n" + b)[0] != '\n'
  {
    var s := a + "\n" + b;
    assert forall i :: 0 <= i < |a| ==> s[i] == a[i];
    assert s[|a|] == '\n';
    assert forall i :: 0 <= i < |b| ==> s[|a| + 1 + i] == b[i];
    assert s[|s| - 1] == b[|b| - 1];
    forall i | 0 <= i < |s| - 1 ensures !(s[i] == '\n' && s[i + 1] == '\n') {
      if i > |a| {
        assert s[i] == b[i - |a| - 1] && s[i + 1] == b[i - |a| - 1 + 1];
      }
    }
  }

  lemma BodySolid(e: Envelope)
    requires Clean(e)
    ensures Solid(Body(e))
  {
    hide Solid;
    var a, b, c := "id: " + Text.Decimal(e.sequence), "event: " + e.eventType, "data: " + e.data;
    LineSolid(c);
    SolidJoin(b, c);
    DecimalOneLine(e.sequence);
    SolidJoin(a, b + "\n" + c);
    assert Body(e) == a + "\n" + (b + "\n" + c);
  }

  lemma LineSolid(c: string)
    requires OneLine(c) && c != []
    ensures Solid(c)
  {
  }

  /** The first blank line of a printed text is the one that ends its first event. */
  lemma FirstCut(body: string, rest: string)
    requires Solid(body)
    ensures Split(body + "\n\n" + rest) == Cut([body] + Split(rest).blocks, Split(rest).rest)
  {
    var s := body + "\n\n" + rest;
    assert forall j :: 0 <= j < |body| ==> s[j] == body[j];
    assert s[|body|] == '\n' && s[|body| + 1] == '\n';
    assert BlankLine(s, |body|) == 2;
    forall j | 0 <= j < |body| ensures BlankLine(s, j) == 0 {
      assert s[j] == body[j] && body[j] != '\r';
      if j + 1 < |body| {
        assert s[j + 1] == body[j + 1] && body[j + 1] != '\r';
      }
    }
    FirstIs(s, 0, |body|);
    assert s[..|body|] == body && s[|body| + 2..] == rest;
  }

  function Bodies(envelopes: seq<Envelope>): seq<string> {
    seq(|envelopes|, i requires 0 <= i < |envelopes| => Body(envelopes[i]))
  }

  function FramesOf(envelopes: seq<Envelope>): seq<Frame> {
    seq(|envelopes|, i requires 0 <= i < |envelopes| => FrameOf(envelopes[i]))
  }

  lemma BodiesSplit(envelopes: seq<Envelope>)
    requires envelopes != []
    ensures Bodies(envelopes) == [Body(envelopes[0])] + Bodies(envelopes[1..])
    ensures var k := |envelopes| - 1;
            && Bodies(envelopes)[..k] == Bodies(envelopes[..k]) && Bodies(envelopes)[k] == Body(envelopes[k])
            && FramesOf(envelopes) == FramesOf(envelopes[..k]) + [FrameOf(envelopes[k])]
  {
    hide Body, FrameOf;
  }

  lemma {:induction false} SplitPrinted(envelopes: seq<Envelope>)
    requires forall i :: 0 <= i < |envelopes| ==> Clean(envelopes[i])
    ensures Split(PrintAll(envelopes)) == Cut(Bodies(envelopes), "")
  {
    if envelopes == [] {
      SplitNothing();
    } else {
      hide Split, Body, Bodies, Solid, Clean;
      var rest := envelopes[1..];
      assert forall i :: 0 <= i < |rest| ==> rest[i] == envelopes[i + 1];
      SplitPrinted(rest);
      BodySolid(envelopes[0]);
      FirstCut(Body(envelopes[0]), PrintAll(rest));
      BodiesSplit(envelopes);
    }
  }

  lemma {:induction false} ParseBodies(envelopes: seq<Envelope>)
    requires forall i :: 0 <= i < |envelopes| ==> Clean(envelopes[i])
    ensures ParseAll(Bodies(envelopes)) == FramesOf(envelopes)
  {
    if envelopes != [] {
      hide Parse, Body, FrameOf, Bodies, FramesOf, Clean;
      var k := |envelopes| - 1;
      assert forall i :: 0 <= i < k ==> envelopes[..k][i] == envelopes[i];
      BodiesSplit(envelopes);
      BodiesLength(envelopes);
      ParseBodies(envelopes[..k]);
      ParsePrinted(envelopes[k]);
    }
  }

  lemma BodiesLength(envelopes: seq<Envelope>)
    ensures |Bodies(envelopes)| == |envelopes|
  {
  }

  /** Main result: whatever chunks the printed text arrives in, reading it yields
      the printed ids, events and data in order, and an id reads back as its sequence. */
  lemma {:induction false} RoundTrip(envelopes: seq<Envelope>, chunks: seq<string>)
    requires forall i :: 0 <= i < |envelopes| ==> Clean(envelopes[i])
    requires Concat(chunks) == PrintAll(envelopes)
    ensures var frames := Frames(Concat(chunks));
            && |frames| == |envelopes|
            && forall i :: 0 <= i < |envelopes| ==>
                 && frames[i] == FrameOf(envelopes[i])
                 && (forall k :: 0 <= k < |frames[i].id.value| ==> Text.IsDigit(frames[i].id.value[k]))
                 && Text.Value(frames[i].id.value) == envelopes[i].sequence
  {
    SplitPrinted(envelopes);
    ParseBodies(envelopes);
    forall i | 0 <= i < |envelopes|
      ensures forall k :: 0 <= k < |Text.Decimal(envelopes[i].sequence)| ==>
        Text.IsDigit(Text.Decimal(envelopes[i].sequence)[k])
      ensures Text.Value(Text.Decimal(envelopes[i].sequence)) == envelopes[i].sequence
    {
      Text.DecimalReads(envelopes[i].sequence);
    }
  }
}
