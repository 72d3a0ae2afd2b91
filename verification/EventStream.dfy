/**
 The line-level event-stream parser of the stdio proxy.

 It follows section 9.2.6 of the WHATWG HTML Living Standard, except that it also dispatches a last
 block that no blank line ends, and that it forgets the event id after every block.
 */
module EventStream {
  import opened Basics

  datatype Event = Event(id: Option<string>, data: string)

  /** The position of the first colon, or the length of the line. */
  function Colon(line: string): (k: nat)
    ensures k <= |line| && ':' !in line[..k] && (k < |line| ==> line[k] == ':')
  {
    if line == "" || line[0] == ':' then 0 else 1 + Colon(line[1..])
  }

  function Field(line: string): string {
    line[..Colon(line)]
  }

  /** What follows the colon, without one leading space. */
  function Value(line: string): string {
    var k := Colon(line);
    if k == |line| then ""
    else
      var rest := line[k + 1..];
      if rest != "" && rest[0] == ' ' then rest[1..] else rest
  }

  function Join(lines: seq<string>): string {
    if lines == [] then ""
    else if |lines| == 1 then lines[0]
    else Join(lines[..|lines| - 1]) + "\n" + lines[|lines| - 1]
  }

  // ----- the meaning of a list of lines

  /** The data fields of a block, in order. */
  function Data(block: seq<string>): seq<string> {
    if block == [] then []
    else
      var last := block[|block| - 1];
      Data(block[..|block| - 1]) + (if Field(last) == "data" then [Value(last)] else [])
  }

  /** The last id field of a block. */
  function LastId(block: seq<string>): Option<string> {
    if block == [] then None
    else
      var last := block[|block| - 1];
      if Field(last) == "id" then Some(Value(last)) else LastId(block[..|block| - 1])
  }

  /** A block is an event if it has data. */
  function Dispatch(block: seq<string>): seq<Event> {
    if Data(block) == [] then [] else [Event(LastId(block), Join(Data(block)))]
  }

  /** The lines after the last blank one. */
  function Open(lines: seq<string>): seq<string> {
    if lines == [] || lines[|lines| - 1] == "" then []
    else Open(lines[..|lines| - 1]) + [lines[|lines| - 1]]
  }

  /** The events of the blocks that a blank line has ended. */
  function Closed(lines: seq<string>): seq<Event> {
    if lines == [] then []
    else
      var front := lines[..|lines| - 1];
      Closed(front) + (if lines[|lines| - 1] == "" then Dispatch(Open(front)) else [])
  }

  function Events(lines: seq<string>): seq<Event> {
    Closed(lines) + Dispatch(Open(lines))
  }

  // ----- the parser, line by line

  /** The variables of the parser loop. */
  datatype Parser = Parser(events: seq<Event>, id: Option<string>, data: seq<string>)

  const START := Parser([], None, [])

  function Feed(p: Parser, line: string): Parser {
    if line == "" then
      Parser(if p.data == [] then p.events else p.events + [Event(p.id, Join(p.data))], None, [])
    else if Field(line) == "id" then p.(id := Some(Value(line)))
    else if Field(line) == "data" then p.(data := p.data + [Value(line)])
    else p
  }

  function FeedAll(p: Parser, lines: seq<string>): Parser {
    if lines == [] then p else Feed(FeedAll(p, lines[..|lines| - 1]), lines[|lines| - 1])
  }

  /** The variables hold the events of the ended blocks and the fields of the open one. */
  lemma {:induction false} ParserMeaning(lines: seq<string>)
    ensures FeedAll(START, lines) == Parser(Closed(lines), LastId(Open(lines)), Data(Open(lines)))
  {
    if lines != [] {
      var front, last := lines[..|lines| - 1], lines[|lines| - 1];
      ParserMeaning(front);
      if last != "" {
        assert Open(lines)[..|Open(lines)| - 1] == Open(front);
      }
    }
  }

  method SseEvents(lines: seq<string>) returns (events: seq<Event>)
    ensures events == Events(lines)
  {
    events := [];
    var eventId: Option<string> := None;
    var dataLines: seq<string> := [];
    var padded := lines + [""];
    for i := 0 to |padded|
      invariant Parser(events, eventId, dataLines) == FeedAll(START, padded[..i])
    {
      assert padded[..i + 1][..i] == padded[..i];
      var line := padded[i];
      if line == "" {
        if dataLines != [] {
          events := events + [Event(eventId, Join(dataLines))];
        }
        eventId := None;
        dataLines := [];
        continue;
      }
      if line[0] == ':' {
        continue;
      }
      var field, value := Field(line), Value(line);
      if field == "id" {
        eventId := Some(value);
      } else if field == "data" {
        dataLines := dataLines + [value];
      }
    }
    assert padded[..|padded|] == padded && padded[..|lines|] == lines;
    EventsAreFed(lines);
  }

  lemma EventsAreFed(lines: seq<string>)
    ensures Events(lines) == Feed(FeedAll(START, lines), "").events
  {
    ParserMeaning(lines);
  }

  lemma {:induction false} FeedAllAppend(p: Parser, a: seq<string>, b: seq<string>)
    ensures FeedAll(p, a + b) == FeedAll(FeedAll(p, a), b)
  {
    if b == [] {
      assert a + b == a;
    } else {
      assert (a + b)[..|a + b| - 1] == a + b[..|b| - 1];
      FeedAllAppend(p, a, b[..|b| - 1]);
    }
  }

  lemma FeedShift(found: seq<Event>, p: Parser, line: string)
    ensures Feed(p.(events := found + p.events), line) == Feed(p, line).(events := found + Feed(p, line).events)
  {
  }

  /** Events already found do not influence the parser. */
  lemma {:induction false} FeedAllShift(found: seq<Event>, p: Parser, lines: seq<string>)
    ensures FeedAll(p.(events := found + p.events), lines)
            == FeedAll(p, lines).(events := found + FeedAll(p, lines).events)
  {
    if lines != [] {
      FeedAllShift(found, p, lines[..|lines| - 1]);
      FeedShift(found, FeedAll(p, lines[..|lines| - 1]), lines[|lines| - 1]);
    }
  }

  // ----- composition

  lemma BlankEndsBlock(a: seq<string>)
    ensures FeedAll(START, a + [""]) == START.(events := Events(a) + START.events)
  {
    EventsAreFed(a);
    assert (a + [""])[..|a|] == a;
  }

  lemma JoinedFeed(a: seq<string>, b: seq<string>)
    ensures FeedAll(START, a + [""] + b) == FeedAll(START, b).(events := Events(a) + FeedAll(START, b).events)
  {
    FeedAllAppend(START, a + [""], b);
    BlankEndsBlock(a);
    FeedAllShift(Events(a), START, b);
  }

  /** Two streams joined by a blank line parse to the events of the first followed by those of the second. */
  lemma JoinedStreams(a: seq<string>, b: seq<string>)
    ensures Events(a + [""] + b) == Events(a) + Events(b)
  {
    EventsAreFed(b);
    EventsAreFed(a + [""] + b);
    JoinedFeed(a, b);
    FeedShift(Events(a), FeedAll(START, b), "");
  }

  predicate Ignored(line: string) {
    line != "" && Field(line) != "id" && Field(line) != "data"
  }

  lemma IgnoredFeed(p: Parser, a: seq<string>, line: string, b: seq<string>)
    requires Ignored(line)
    ensures FeedAll(p, a + [line] + b) == FeedAll(p, a + b)
  {
    FeedAllAppend(p, a + [line], b);
    FeedAllAppend(p, a, b);
    assert (a + [line])[..|a|] == a;
  }

  /** Inserting a comment or an unknown field anywhere changes nothing. */
  lemma IgnoredLinesChangeNothing(a: seq<string>, line: string, b: seq<string>)
    requires Ignored(line)
    ensures Events(a + [line] + b) == Events(a + b)
  {
    EventsAreFed(a + [line] + b);
    EventsAreFed(a + b);
    IgnoredFeed(START, a, line, b);
  }

  lemma CommentsAreIgnored(comment: string)
    ensures Ignored(":" + comment)
  {
    assert Colon(":" + comment) == 0;
  }

  // ----- what the fields of a line and of a block are

  /** A line is the name before its first colon and, without one leading space, the value after it. */
  lemma FieldExactly(name: string, rest: string)
    requires ':' !in name
    ensures Field(name + ":" + rest) == name
    ensures rest == "" || rest[0] != ' ' ==> Value(name + ":" + rest) == rest
    ensures Field(name + ": " + rest) == name && Value(name + ": " + rest) == rest
    ensures Field(name) == name && Value(name) == ""
  {
    ColonAfter(name, rest);
    assert (name + ":" + rest)[|name| + 1..] == rest;
    PrintedField(name, rest);
    NoColon(name);
  }

  lemma {:induction false} NoColon(name: string)
    requires ':' !in name
    ensures Colon(name) == |name|
  {
    if name != "" {
      NoColon(name[1..]);
    }
  }

  /** The text up to the first line break, and the lines after it. */
  function Split(text: string): (lines: seq<string>)
    ensures lines != []
  {
    if text == "" then [""]
    else
      var front := Split(text[..|text| - 1]);
      if text[|text| - 1] == '\n' then front + [""]
      else front[..|front| - 1] + [front[|front| - 1] + [text[|text| - 1]]]
  }

  lemma {:induction false} SplitAppend(text: string, line: string)
    requires '\n' !in line
    ensures var front := Split(text); Split(text + line) == front[..|front| - 1] + [front[|front| - 1] + line]
  {
    if line == "" {
      assert text + line == text && Split(text)[|Split(text)| - 1] + line == Split(text)[|Split(text)| - 1];
    } else {
      var rest, last := line[..|line| - 1], line[|line| - 1];
      assert (text + line)[..|text + line| - 1] == text + rest && line == rest + [last];
      SplitAppend(text, rest);
      assert Split(text)[|Split(text)| - 1] + rest + [last] == Split(text)[|Split(text)| - 1] + line;
    }
  }

  lemma SplitBreak(text: string)
    ensures Split(text + "\n") == Split(text) + [""]
  {
    assert (text + "\n")[..|text|] == text;
  }

  lemma SplitLine(text: string, lines: seq<string>, line: string)
    requires '\n' !in line && Split(text) == lines + [""]
    ensures Split(text + line) == lines + [line]
  {
    SplitAppend(text, line);
    assert (lines + [""])[..|lines|] == lines && "" + line == line;
  }

  /** Joining is undone by splitting at line breaks: the data of an event is its data lines, line by line. */
  lemma {:induction false} JoinThenSplit(lines: seq<string>)
    requires lines != [] && forall i :: 0 <= i < |lines| ==> '\n' !in lines[i]
    ensures Split(Join(lines)) == lines
  {
    var front, last := lines[..|lines| - 1], lines[|lines| - 1];
    assert lines == front + [last];
    if front == [] {
      SplitLine("", [], last);
      assert "" + last == last;
    } else {
      JoinThenSplit(front);
      SplitBreak(Join(front));
      SplitLine(Join(front) + "\n", front, last);
    }
  }

  /** The id of a block is that of its last id line, which stands at `k`; without an id line, `k` is -1. */
  lemma {:induction false} LastIdExactly(block: seq<string>) returns (k: int)
    ensures -1 <= k < |block| && forall i :: k < i < |block| ==> Field(block[i]) != "id"
    ensures if k == -1 then LastId(block) == None
            else Field(block[k]) == "id" && LastId(block) == Some(Value(block[k]))
  {
    k := -1;
    if block != [] {
      var n := |block| - 1;
      if Field(block[n]) == "id" {
        k := n;
      } else {
        k := LastIdExactly(block[..n]);
      }
    }
  }

  /** The places of the data lines of a block, in order. */
  ghost predicate DataPlaces(block: seq<string>, places: seq<nat>) {
    && (forall i :: 0 <= i < |places| ==> places[i] < |block| && Field(block[places[i]]) == "data")
    && (forall i, j :: 0 <= i < j < |places| ==> places[i] < places[j])
    && (forall k :: 0 <= k < |block| && Field(block[k]) == "data" ==> k in places)
  }

  /** The data of a block are the values of all its data lines, in order. */
  lemma {:induction false} DataExactly(block: seq<string>) returns (places: seq<nat>)
    ensures DataPlaces(block, places) && |Data(block)| == |places|
    ensures forall i :: 0 <= i < |places| ==> Data(block)[i] == Value(block[places[i]])
  {
    places := [];
    if block != [] {
      var n := |block| - 1;
      places := DataExactly(block[..n]);
      if Field(block[n]) == "data" {
        places := places + [n];
      }
    }
  }

  /** Lines without a blank one are one block, whether or not a blank line ends it. */
  lemma {:induction false} OneBlock(block: seq<string>)
    requires "" !in block
    ensures Events(block) == Events(block + [""])
    ensures Events(block) == if Data(block) == [] then [] else [Event(LastId(block), Join(Data(block)))]
  {
    OpenBlock(block);
    assert (block + [""])[..|block|] == block;
    assert Closed(block + [""]) == Closed(block) + Dispatch(Open(block));
    assert Open(block + [""]) == [] && Dispatch([]) == [];
  }

  lemma {:induction false} OpenBlock(block: seq<string>)
    requires "" !in block
    ensures Closed(block) == [] && Open(block) == block
  {
    if block != [] {
      OpenBlock(block[..|block| - 1]);
    }
  }

  // ----- round trip

  /** What a server sends: an optional id and at least one line of data. */
  datatype Source = Source(id: Option<string>, data: seq<string>)

  function PrintData(data: seq<string>): seq<string> {
    if data == [] then [] else PrintData(data[..|data| - 1]) + ["data: " + data[|data| - 1]]
  }

  function Head(s: Source): seq<string> {
    match s.id case None => [] case Some(id) => ["id: " + id]
  }

  function PrintOne(s: Source): seq<string> {
    Head(s) + PrintData(s.data) + [""]
  }

  function Print(sources: seq<Source>): seq<string> {
    if sources == [] then [] else Print(sources[..|sources| - 1]) + PrintOne(sources[|sources| - 1])
  }

  function Sent(sources: seq<Source>): seq<Event> {
    seq(|sources|, i requires 0 <= i < |sources| => Event(sources[i].id, Join(sources[i].data)))
  }

  lemma {:induction false} ColonAfter(name: string, rest: string)
    requires ':' !in name
    ensures Colon(name + ":" + rest) == |name|
  {
    if name == "" {
      assert (name + ":" + rest)[0] == ':';
    } else {
      ColonAfter(name[1..], rest);
      assert (name + ":" + rest)[1..] == name[1..] + ":" + rest;
    }
  }

  lemma PrintedField(name: string, value: string)
    requires ':' !in name
    ensures Field(name + ": " + value) == name && Value(name + ": " + value) == value
  {
    assert name + ": " + value == name + ":" + (" " + value);
    ColonAfter(name, " " + value);
    assert (name + ": " + value)[|name| + 1..] == " " + value;
  }

  lemma {:induction false} PrintedData(p: Parser, data: seq<string>)
    ensures FeedAll(p, PrintData(data)) == p.(data := p.data + data)
  {
    if data == [] {
      assert p.data + data == p.data;
    } else {
      var front, last := data[..|data| - 1], data[|data| - 1];
      PrintedData(p, front);
      PrintedLine(FeedAll(p, PrintData(front)), last);
      FeedNext(p, PrintData(front), "data: " + last);
      assert p.data + data == p.data + front + [last];
    }
  }

  lemma FeedNext(p: Parser, lines: seq<string>, line: string)
    ensures FeedAll(p, lines + [line]) == Feed(FeedAll(p, lines), line)
  {
    assert (lines + [line])[..|lines|] == lines;
  }

  lemma PrintedLine(p: Parser, line: string)
    ensures Feed(p, "data: " + line) == p.(data := p.data + [line])
  {
    PrintedField("data", line);
    assert "data: " + line == "data" + ": " + line;
  }

  lemma PrintedOne(found: seq<Event>, s: Source)
    requires s.data != []
    ensures FeedAll(START.(events := found), PrintOne(s)) == START.(events := found + [Event(s.id, Join(s.data))])
  {
    var p := START.(events := found);
    var head := Head(s);
    if s.id.Some? {
      PrintedField("id", s.id.value);
      assert head[0] == "id" + ": " + s.id.value;
      assert head[..0] == [];
    }
    assert FeedAll(p, head) == p.(id := s.id);
    FeedAllAppend(p, head, PrintData(s.data));
    PrintedData(p.(id := s.id), s.data);
    assert [] + s.data == s.data;
    FeedAllAppend(p, head + PrintData(s.data), [""]);
    assert [""][..0] == [];
  }

  lemma {:induction false} PrintedAll(sources: seq<Source>)
    requires forall i :: 0 <= i < |sources| ==> sources[i].data != []
    ensures FeedAll(START, Print(sources)) == START.(events := Sent(sources))
  {
    if sources != [] {
      var front, last := sources[..|sources| - 1], sources[|sources| - 1];
      PrintedAll(front);
      PrintedOne(Sent(front), last);
      FeedAllAppend(START, Print(front), PrintOne(last));
      assert Sent(sources) == Sent(front) + [Event(last.id, Join(last.data))];
    }
  }

  /** Printing events with data and parsing the lines gives the events back. */
  lemma RoundTrip(sources: seq<Source>)
    requires forall i :: 0 <= i < |sources| ==> sources[i].data != []
    ensures Events(Print(sources)) == Sent(sources)
  {
    PrintedAll(sources);
    EventsAreFed(Print(sources));
  }

  // ----- the responses of the system's own servers

  /** As the servers print an event: with its kind between the id and the data. */
  function ServeOne(s: Source, kind: string): seq<string> {
    Head(s) + ["event: " + kind] + (PrintData(s.data) + [""])
  }

  function ServeEach(sources: seq<Source>, kind: string): seq<string> {
    if sources == [] then []
    else ServeEach(sources[..|sources| - 1], kind) + ServeOne(sources[|sources| - 1], kind)
  }

  /** A whole response: the events, and a comment in a block of its own. */
  function Serve(sources: seq<Source>, kind: string, comment: string): seq<string> {
    ServeEach(sources, kind) + [":" + comment, ""]
  }

  lemma ServedOne(p: Parser, s: Source, kind: string)
    ensures FeedAll(p, ServeOne(s, kind)) == FeedAll(p, PrintOne(s))
  {
    PrintedField("event", kind);
    assert "event: " + kind == "event" + ": " + kind;
    IgnoredFeed(p, Head(s), "event: " + kind, PrintData(s.data) + [""]);
    assert PrintOne(s) == Head(s) + (PrintData(s.data) + [""]);
  }

  lemma {:induction false} ServedEach(sources: seq<Source>, kind: string)
    ensures FeedAll(START, ServeEach(sources, kind)) == FeedAll(START, Print(sources))
  {
    if sources != [] {
      var front, last := sources[..|sources| - 1], sources[|sources| - 1];
      ServedEach(front, kind);
      FeedAllAppend(START, ServeEach(front, kind), ServeOne(last, kind));
      FeedAllAppend(START, Print(front), PrintOne(last));
      ServedOne(FeedAll(START, Print(front)), last, kind);
    }
  }

  /** The events of a server's response are the events it sent: kinds and comments are not seen. */
  lemma ServedRoundTrip(sources: seq<Source>, kind: string, comment: string)
    requires forall i :: 0 <= i < |sources| ==> sources[i].data != []
    ensures Events(Serve(sources, kind, comment)) == Sent(sources)
  {
    var each := ServeEach(sources, kind);
    CommentsAreIgnored(comment);
    assert Serve(sources, kind, comment) == each + [":" + comment] + [""];
    IgnoredLinesChangeNothing(each, ":" + comment, [""]);
    assert each + [""] + [] == each + [""];
    JoinedStreams(each, []);
    NoLinesNoEvents();
    EventsAreFed(each);
    EventsAreFed(Print(sources));
    ServedEach(sources, kind);
    RoundTrip(sources);
  }

  lemma NoLinesNoEvents()
    ensures Events([]) == []
  {
  }
}
