/** What the client reads from any well-cut text, not only from what the gateway
    prints: comments, unknown and bare fields, either line end, several data lines. */
module SseWire {
  import opened Options
  import Text
  import opened Sse

  datatype End = Lf | CrLf

  function Eol(e: End): (s: string)
    ensures |s| > 0
  {
    if e == Lf then "\n" else "\r\n"
  }

  /** A line of a block: a comment, a field without a colon, or a field with a
      value, one space after the colon or none. */
  datatype Line = Comment(text: string) | Bare(name: string) | Field(name: string, space: bool, value: string)

  function LineText(l: Line): string {
    match l
    case Comment(text) => ":" + text
    case Bare(name) => name
    case Field(name, space, value) => name + ":" + (if space then " " + value else value)
  }

  /** A line can hold any text without line ends; without the space a value does not start with one. */
  predicate Sound(l: Line) {
    match l
    case Comment(text) => OneLine(text)
    case Bare(name) => OneLine(name) && name != "" && ':' !in name
    case Field(name, space, value) =>
      OneLine(name) && OneLine(value) && name != "" && ':' !in name && (!space ==> value == "" || value[0] != ' ')
  }

  /** The values of a field, in order; a bare field has the empty value. */
  function Values(lines: seq<Line>, name: string): seq<string> {
    if lines == [] then []
    else
      var front, l := Values(lines[..|lines| - 1], name), lines[|lines| - 1];
      if l.Bare? && l.name == name then front + [""]
      else if l.Field? && l.name == name then front + [l.value]
      else front
  }

  function LastOf(values: seq<string>): Option<string> {
    if values == [] then None else Some(values[|values| - 1])
  }

  /** The lines joined by line feeds. */
  function Join(values: seq<string>): string {
    if values == [] then ""
    else if |values| == 1 then values[0]
    else Join(values[..|values| - 1]) + "\n" + values[|values| - 1]
  }

  /** Lines, each but the last with its line end. */
  function BlockText(lines: seq<Line>, ends: nat -> End): string {
    if lines == [] then ""
    else if |lines| == 1 then LineText(lines[0])
    else LineText(lines[0]) + Eol(ends(0)) + BlockText(lines[1..], Shifted(ends))
  }

  function Shifted(ends: nat -> End): nat -> End {
    (i: nat) => ends(i + 1)
  }

  // ------------------------------------------------ one block

  lemma LineIsSound(l: Line)
    requires Sound(l)
    ensures OneLine(LineText(l)) && LineText(l) != ""
  {
  }

  lemma LinesOfEither(a: string, e: End, b: string)
    requires OneLine(a)
    ensures Lines(a + Eol(e) + b) == [a] + Lines(b)
  {
    if e == Lf {
      LinesOf(a, b);
    } else {
      var s := a + "\r\n" + b;
      assert s == (a + "\r") + "\n" + b;
      IndexIs(a + "\r", '\n', b);
      assert s[..|a| + 1] == a + "\r" && s[|a|] == '\r' && s[..|a|] == a && s[|a| + 2..] == b;
    }
  }

  lemma {:induction false} BlockLines(lines: seq<Line>, ends: nat -> End)
    requires lines != [] && forall l :: l in lines ==> Sound(l)
    ensures Lines(BlockText(lines, ends)) == seq(|lines|, i requires 0 <= i < |lines| => LineText(lines[i]))
    decreases |lines|
  {
    hide Lines, LineText;
    LineIsSound(lines[0]);
    if |lines| == 1 {
      LastLine(LineText(lines[0]));
    } else {
      BlockLines(lines[1..], Shifted(ends));
      LinesOfEither(LineText(lines[0]), ends(0), BlockText(lines[1..], Shifted(ends)));
    }
  }

  function Told(f: Fields, l: Line): Fields {
    match l
    case Comment(_) => f
    case Bare(name) => Set(f, name, "")
    case Field(name, _, value) => Set(f, name, value)
  }

  function Set(f: Fields, name: string, value: string): Fields {
    if name == "id" then f.(id := Some(value))
    else if name == "event" then f.(event := Some(value))
    else if name == "data" then f.(data := f.data + [value])
    else f
  }

  lemma LineRead(f: Fields, l: Line)
    requires Sound(l)
    ensures ReadLine(f, LineText(l)) == Told(f, l)
  {
    var line := LineText(l);
    match l
    case Comment(text) => assert line[0] == ':';
    case Bare(name) =>
      NoColon(name);
      assert name[0] != ':' && FieldOf(line) == name && ValueOf(line) == "";
    case Field(name, space, value) =>
      var rest := if space then " " + value else value;
      IndexIs(name, ':', rest);
      assert line == name + [':'] + rest;
      assert line[0] == name[0] && line[..|name|] == name && line[|name| + 1..] == rest;
      assert FieldOf(line) == name;
      if space {
        assert line[|name| + 1] == ' ' && line[|name| + 2..] == value;
      } else if value != "" {
        assert line[|name| + 1] == value[0];
      }
      assert ValueOf(line) == value;
  }

  lemma NoColon(name: string)
    requires ':' !in name
    ensures IndexOf(name, ':') == |name| && name[..|name|] == name
  {
  }

  function AsRead(lines: seq<Line>): Fields {
    Fields(LastOf(Values(lines, "id")), LastOf(Values(lines, "event")), Values(lines, "data"))
  }

  lemma ReadAppend(lines: seq<Line>, l: Line)
    ensures AsRead(lines + [l]) == Told(AsRead(lines), l)
  {
    assert (lines + [l])[..|lines|] == lines;
  }

  lemma {:induction false} ReadsOn(before: seq<Line>, lines: seq<Line>, texts: seq<string>)
    requires forall l :: l in lines ==> Sound(l)
    requires texts == seq(|lines|, i requires 0 <= i < |lines| => LineText(lines[i]))
    ensures ReadLines(AsRead(before), texts) == AsRead(before + lines)
    decreases |lines|
  {
    hide ReadLine, LineText, AsRead, Told;
    if lines == [] {
      assert before + lines == before;
    } else {
      LineRead(AsRead(before), lines[0]);
      ReadAppend(before, lines[0]);
      ReadsOn(before + [lines[0]], lines[1..], texts[1..]);
      assert before + [lines[0]] + lines[1..] == before + lines;
    }
  }

  lemma {:induction false} JoinIs(values: seq<string>)
    ensures Joined(values) == Join(values)
  {
    if |values| == 2 {
      assert values == [values[0], values[1]];
      assert values[1..] == [values[1]] && values[..1] == [values[0]];
    } else if |values| > 2 {
      JoinIs(values[1..]);
      JoinIs(values[..|values| - 1]);
      assert values[1..][..|values[1..]| - 1] == values[..|values| - 1][1..];
      JoinIs(values[1..][..|values[1..]| - 1]);
      var mid := Join(values[1..][..|values[1..]| - 1]);
      assert values[0] + "\n" + (mid + "\n" + values[|values| - 1])
        == values[0] + "\n" + mid + "\n" + values[|values| - 1];
    }
  }

  /** Main result: a block of any sound lines reads as its last id, its last event
      and its data values joined by line feeds, and as nothing without data;
      comments and other fields do not matter, nor does which line end is used. */
  lemma {:induction false} BlockMeans(lines: seq<Line>, ends: nat -> End)
    requires lines != [] && forall l :: l in lines ==> Sound(l)
    ensures Parse(BlockText(lines, ends)) ==
              if Values(lines, "data") == [] then None
              else Some(Frame(LastOf(Values(lines, "id")), LastOf(Values(lines, "event")), Join(Values(lines, "data"))))
  {
    BlockLines(lines, ends);
    var texts := seq(|lines|, i requires 0 <= i < |lines| => LineText(lines[i]));
    assert AsRead([]) == NoFields;
    ReadsOn([], lines, texts);
    assert [] + lines == lines;
    JoinIs(Values(lines, "data"));
  }

  // ------------------------------------------------ cutting

  /** Text without a blank line in it: a line feed is followed by an ordinary
      character, a carriage return by a line feed, and neither stands at an end. */
  predicate Unbroken(s: string) {
    && s != "" && s[0] !in {'\r', '\n'} && s[|s| - 1] !in {'\r', '\n'}
    && (forall i :: 0 <= i < |s| - 1 && s[i] == '\n' ==> s[i + 1] !in {'\r', '\n'})
    && (forall i :: 0 <= i < |s| - 1 && s[i] == '\r' ==> s[i + 1] == '\n')
  }

  lemma {:induction false} BlockUnbroken(lines: seq<Line>, ends: nat -> End)
    requires lines != [] && forall l :: l in lines ==> Sound(l)
    ensures Unbroken(BlockText(lines, ends))
    decreases |lines|
  {
    hide LineText;
    LineIsSound(lines[0]);
    var a := LineText(lines[0]);
    if |lines| > 1 {
      BlockUnbroken(lines[1..], Shifted(ends));
      UnbrokenJoin(a, ends(0), BlockText(lines[1..], Shifted(ends)));
    } else {
      assert forall i :: 0 <= i < |a| ==> a[i] in a;
    }
  }

  /** The character of joined lines at each place. */
  lemma JoinedAt(a: string, e: End, b: string, i: nat)
    requires i < |a + Eol(e) + b|
    ensures var s, n := a + Eol(e) + b, |a| + |Eol(e)|;
            && (i < |a| ==> s[i] == a[i] && s[i] in a)
            && (|a| <= i < n ==> s[i] == Eol(e)[i - |a|])
            && (n <= i ==> s[i] == b[i - n])
  {
    assert i < |a| ==> a[i] in a;
  }

  lemma UnbrokenJoin(a: string, e: End, b: string)
    requires OneLine(a) && a != "" && Unbroken(b)
    ensures Unbroken(a + Eol(e) + b)
  {
    var s, n := a + Eol(e) + b, |a| + |Eol(e)|;
    JoinedAt(a, e, b, 0);
    JoinedAt(a, e, b, |s| - 1);
    forall i | 0 <= i < |s| - 1
      ensures (s[i] == '\n' ==> s[i + 1] !in {'\r', '\n'}) && (s[i] == '\r' ==> s[i + 1] == '\n')
    {
      JoinedAt(a, e, b, i);
      JoinedAt(a, e, b, i + 1);
      JoinedStep(a, e, b, i, s[i], s[i + 1]);
    }
  }

  lemma JoinedStep(a: string, e: End, b: string, i: nat, here: char, next: char)
    requires OneLine(a) && Unbroken(b)
    requires var n := |a| + |Eol(e)|;
             && i + 1 < n + |b|
             && (i < |a| ==> here in a) && (|a| <= i < n ==> here == Eol(e)[i - |a|]) && (n <= i ==> here == b[i - n])
             && (|a| <= i + 1 < n ==> next == Eol(e)[i + 1 - |a|]) && (n <= i + 1 ==> next == b[i + 1 - n])
    ensures here == '\n' ==> next !in {'\r', '\n'}
    ensures here == '\r' ==> next == '\n'
  {
  }

  /** A separator of any two line ends cuts exactly there. */
  lemma CutsAt(block: string, x: End, y: End, rest: string)
    requires Unbroken(block)
    ensures Split(block + Eol(x) + Eol(y) + rest) == Cut([block] + Split(rest).blocks, Split(rest).rest)
  {
    hide BlankLine, FirstBlank, Unbroken, Split, Eol;
    var gap := Eol(x) + Eol(y);
    var s, n := block + Eol(x) + Eol(y) + rest, |block|;
    assert s == block + (gap + rest);
    GapIsBlank(block, x, y, rest);
    forall j | 0 <= j < n ensures BlankLine(s, j) == 0 {
      NoBlankInside(block, gap + rest, j);
    }
    FirstIs(s, 0, n);
    assert s[..n] == block && s[n + |gap|..] == rest;
    SplitAt(s, n);
  }

  lemma GapIsBlank(block: string, x: End, y: End, rest: string)
    ensures BlankLine(block + (Eol(x) + Eol(y) + rest), |block|) == |Eol(x) + Eol(y)|
  {
    var gap := Eol(x) + Eol(y);
    var s := block + (gap + rest);
    assert forall j :: 0 <= j < |gap| ==> s[|block| + j] == gap[j];
  }

  lemma NoBlankInside(block: string, rest: string, j: nat)
    requires Unbroken(block) && j < |block|
    ensures BlankLine(block + rest, j) == 0
  {
    var s := block + rest;
    assert s[j] == block[j];
    if block[j] == '\n' {
      assert s[j + 1] == block[j + 1];
    } else if block[j] == '\r' {
      assert s[j + 1] == block[j + 1] && s[j + 2] == block[j + 2];
    }
  }

  lemma {:induction false} NoneFrom(s: string, i: nat)
    requires forall j :: i <= j < |s| ==> BlankLine(s, j) == 0
    ensures FirstBlank(s, i) == None
    decreases |s| - i
  {
    if i < |s| {
      NoneFrom(s, i + 1);
    }
  }

  lemma NoCut(block: string)
    requires Unbroken(block)
    ensures Split(block) == Cut([], block)
  {
    NoneFrom(block, 0);
  }

  /** A text of blocks, each but perhaps the last followed by a blank line. */
  datatype Piece = Piece(lines: seq<Line>, ends: nat -> End, first: End, second: End)

  predicate SoundPiece(p: Piece) {
    p.lines != [] && forall l :: l in p.lines ==> Sound(l)
  }

  function TextOf(pieces: seq<Piece>, tail: string): string {
    if pieces == [] then tail
    else
      var p := pieces[0];
      BlockText(p.lines, p.ends) + Eol(p.first) + Eol(p.second) + TextOf(pieces[1..], tail)
  }

  function BlocksOf(pieces: seq<Piece>): seq<string> {
    if pieces == [] then [] else [BlockText(pieces[0].lines, pieces[0].ends)] + BlocksOf(pieces[1..])
  }

  lemma {:induction false} SplitText(pieces: seq<Piece>, tail: string)
    requires (forall p :: p in pieces ==> SoundPiece(p)) && Split(tail) == Cut([], tail)
    ensures Split(TextOf(pieces, tail)) == Cut(BlocksOf(pieces), tail)
    decreases |pieces|
  {
    hide Split, BlockText, Unbroken;
    if pieces != [] {
      var p := pieces[0];
      assert p in pieces && SoundPiece(p);
      BlockUnbroken(p.lines, p.ends);
      SplitText(pieces[1..], tail);
      CutsAt(BlockText(p.lines, p.ends), p.first, p.second, TextOf(pieces[1..], tail));
    }
  }

  /** What the pieces mean, those without data left out. */
  function Meaning(lines: seq<Line>): seq<Frame> {
    if Values(lines, "data") == [] then []
    else [Frame(LastOf(Values(lines, "id")), LastOf(Values(lines, "event")), Join(Values(lines, "data")))]
  }

  function Meanings(pieces: seq<Piece>): seq<Frame> {
    if pieces == [] then [] else Meaning(pieces[0].lines) + Meanings(pieces[1..])
  }

  lemma {:induction false} ParseAllCons(block: string, blocks: seq<string>)
    ensures ParseAll([block] + blocks) == (if Parse(block).Some? then [Parse(block).value] else []) + ParseAll(blocks)
  {
    hide Parse;
    var all := [block] + blocks;
    if blocks == [] {
      assert all == [block] && all[..0] == [];
      assert ParseAll(all) == if Parse(block).Some? then [] + [Parse(block).value] else [];
    } else {
      ParseAllCons(block, blocks[..|blocks| - 1]);
      assert all[..|all| - 1] == [block] + blocks[..|blocks| - 1] && all[|all| - 1] == blocks[|blocks| - 1];
    }
  }

  lemma {:induction false} PiecesMean(pieces: seq<Piece>, tail: seq<string>)
    requires forall p :: p in pieces ==> SoundPiece(p)
    ensures ParseAll(BlocksOf(pieces) + tail) == Meanings(pieces) + ParseAll(tail)
    decreases |pieces|
  {
    hide Parse, BlockText, Values, ParseAll;
    if pieces == [] {
      assert BlocksOf(pieces) + tail == tail;
    } else {
      var p := pieces[0];
      assert p in pieces && SoundPiece(p);
      BlockMeans(p.lines, p.ends);
      PiecesMean(pieces[1..], tail);
      var block := BlockText(p.lines, p.ends);
      ParseAllCons(block, BlocksOf(pieces[1..]) + tail);
      assert BlocksOf(pieces) + tail == [block] + (BlocksOf(pieces[1..]) + tail);
    }
  }

  /** A block of white space holds no data. */
  lemma BlankIsNothing(s: string)
    requires IsBlank(s)
    ensures Parse(s) == None
  {
    assert forall i :: 0 <= i < |s| ==> s[i] != ':' && s[i] != 'd';
    LinesHold(s);
    NoData(NoFields, Lines(s));
  }

  predicate Dataless(line: string) {
    forall i :: 0 <= i < |line| ==> line[i] != 'd'
  }

  lemma {:induction false} LinesHold(s: string)
    requires Dataless(s)
    ensures forall k :: 0 <= k < |Lines(s)| ==> Dataless(Lines(s)[k])
    decreases |s|
  {
    var i := IndexOf(s, '\n');
    if i < |s| {
      LinesHold(s[i + 1..]);
    }
  }

  lemma DatalessField(line: string)
    requires Dataless(line)
    ensures FieldOf(line) != "data"
  {
    var i := IndexOf(line, ':');
    assert "data"[0] == 'd';
    assert i > 0 ==> line[..i][0] == line[0];
  }

  lemma {:induction false} NoData(f: Fields, lines: seq<string>)
    requires f.data == [] && forall k :: 0 <= k < |lines| ==> Dataless(lines[k])
    ensures ReadLines(f, lines).data == []
    decreases |lines|
  {
    if lines != [] {
      var line := lines[0];
      DatalessField(line);
      NoData(ReadLine(f, line), lines[1..]);
    }
  }

  /** Main result: text made of sound blocks and blank lines of either line end
      reads as the meanings of its blocks in order, and an unfinished last block is
      read too. */
  lemma {:induction false} TextMeans(pieces: seq<Piece>, last: seq<Line>, ends: nat -> End)
    requires (forall p :: p in pieces ==> SoundPiece(p)) && forall l :: l in last ==> Sound(l)
    ensures Frames(TextOf(pieces, BlockText(last, ends))) == Meanings(pieces) + Meaning(last)
  {
    hide Split, Parse, Values, IsBlank, Meanings;
    var tail := BlockText(last, ends);
    if last == [] {
      SplitNothing();
      assert IsBlank("") by { EmptyIsBlank(); }
      SplitText(pieces, tail);
      PiecesMean(pieces, []);
      assert BlocksOf(pieces) + [] == BlocksOf(pieces);
      NoValues();
    } else {
      BlockUnbroken(last, ends);
      NoCut(tail);
      SplitText(pieces, tail);
      BlockMeans(last, ends);
      PiecesMean(pieces, [tail]);
      PiecesMean(pieces, []);
      assert BlocksOf(pieces) + [] == BlocksOf(pieces);
      ParseAllCons(tail, []);
      if IsBlank(tail) {
        BlankIsNothing(tail);
      }
    }
  }

  lemma EmptyIsBlank()
    ensures IsBlank("")
  {
  }

  lemma NoValues()
    ensures Values([], "data") == []
  {
  }

  /** Whether what is left over is blank makes no difference: blank text holds no data. */
  lemma {:induction false} TrimChangesNothing(s: string)
    ensures var c := Split(s);
            Frames(s) == ParseAll(c.blocks) + (if Parse(c.rest).Some? then [Parse(c.rest).value] else [])
  {
    hide Split, Parse, IsBlank;
    var c := Split(s);
    assert (c.blocks + [c.rest])[..|c.blocks|] == c.blocks;
    if IsBlank(c.rest) {
      BlankIsNothing(c.rest);
    }
  }
}
