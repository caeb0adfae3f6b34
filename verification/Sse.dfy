/** The event stream on the wire: the frames the server writes and the parser the desktop shell reads them with. */
module Sse {
  import opened Prelude

  datatype SseEvent = SseEvent(event: string, data: string, id: Option<string>)

  /** Everything the parser holds between chunks. */
  datatype State = State(buffer: string, event: string, data: seq<string>, id: Option<string>)

  const FRESH := State("", "", [], None)

  // ---------------------------------------------------------------- text

  function IndexOf(s: string, c: char): (k: Option<nat>)
    ensures k.Some? ==> k.value < |s| && s[k.value] == c && c !in s[..k.value]
    ensures k.None? ==> c !in s
  {
    if s == "" then None
    else if s[0] == c then Some(0)
    else
      var k := IndexOf(s[1..], c);
      assert s == [s[0]] + s[1..];
      assert k.Some? ==> s[..k.value + 1] == [s[0]] + s[1..][..k.value];
      if k.Some? then Some(k.value + 1) else None
  }

  /** `trim_end_matches('\r')`: every trailing carriage return goes. */
  function TrimCr(s: string): (r: string)
    ensures r <= s
    ensures (s != "" && s[|s| - 1] == '\r') ==> |r| < |s|
    ensures (s == "" || s[|s| - 1] != '\r') ==> r == s
    ensures (r == "" || r[|r| - 1] != '\r') && forall i | |r| <= i < |s| :: s[i] == '\r'
  {
    if s != "" && s[|s| - 1] == '\r' then TrimCr(s[..|s| - 1]) else s
  }

  /** A line before its first colon and after it, less one leading space; no colon, no value. */
  function Split(line: string): (r: (string, string))
  {
    var k := IndexOf(line, ':');
    if k.None? then (line, "")
    else
      var value := line[k.value + 1..];
      (line[..k.value], if value != "" && value[0] == ' ' then value[1..] else value)
  }

  function Join(lines: seq<string>): (s: string)
  {
    if lines == [] then "" else if |lines| == 1 then lines[0]
    else Join(lines[..|lines| - 1]) + "\n" + lines[|lines| - 1]
  }

  // ---------------------------------------------------------------- what one line does

  function Dispatch(st: State): (r: (State, Option<SseEvent>))
  {
    if st.data == [] && st.event == "" then (st, None)
    else (st.(event := "", data := []), Some(SseEvent(st.event, Join(st.data), st.id)))
  }

  function Line(st: State, line: string): (r: (State, Option<SseEvent>))
  {
    if line == "" then Dispatch(st)
    else if line[0] == ':' then (st, None)
    else
      var (field, value) := Split(line);
      if field == "event" then (st.(event := value), None)
      else if field == "data" then (st.(data := st.data + [value]), None)
      else if field == "id" then (st.(id := Some(value)), None)
      else (st, None)
  }

  // ---------------------------------------------------------------- the reference reading, character by character

  function FeedChar(st: State, c: char): (r: (State, Option<SseEvent>))
  {
    if c == '\n' then Line(st.(buffer := ""), TrimCr(st.buffer)) else (st.(buffer := st.buffer + [c]), None)
  }

  function Feed(st: State, text: string): (r: (State, seq<SseEvent>))
  {
    if text == "" then (st, [])
    else
      var (before, out) := Feed(st, text[..|text| - 1]);
      var (after, event) := FeedChar(before, text[|text| - 1]);
      (after, if event.Some? then out + [event.value] else out)
  }

  lemma Associates<T>(a: seq<T>, b: seq<T>, c: seq<T>)
    ensures (a + b) + c == a + (b + c)
  {
  }

  function Emitted(event: Option<SseEvent>): (r: seq<SseEvent>) { if event.Some? then [event.value] else [] }

  lemma FeedNext(st: State, text: string, c: char)
    ensures Feed(st, text + [c]).0 == FeedChar(Feed(st, text).0, c).0
    ensures Feed(st, text + [c]).1 == Feed(st, text).1 + Emitted(FeedChar(Feed(st, text).0, c).1)
  {
    assert (text + [c])[..|text|] == text;
  }

  lemma FeedAppendsStep(st: State, a: string, b: string, c: char)
    requires Feed(st, a + b).0 == Feed(Feed(st, a).0, b).0
    requires Feed(st, a + b).1 == Feed(st, a).1 + Feed(Feed(st, a).0, b).1
    ensures Feed(st, (a + b) + [c]).0 == Feed(Feed(st, a).0, b + [c]).0
    ensures Feed(st, (a + b) + [c]).1 == Feed(st, a).1 + Feed(Feed(st, a).0, b + [c]).1
  {
    FeedNext(st, a + b, c);
    FeedNext(Feed(st, a).0, b, c);
    Associates(Feed(st, a).1, Feed(Feed(st, a).0, b).1, Emitted(FeedChar(Feed(st, a + b).0, c).1));
  }

  lemma {:induction false} FeedAppends(st: State, a: string, b: string)
    ensures Feed(st, a + b).0 == Feed(Feed(st, a).0, b).0
    ensures Feed(st, a + b).1 == Feed(st, a).1 + Feed(Feed(st, a).0, b).1
  {
    if b == "" {
      assert a + b == a;
    } else {
      var front, c := b[..|b| - 1], b[|b| - 1];
      FeedAppends(st, a, front);
      FeedAppendsStep(st, a, front, c);
      assert front + [c] == b;
      Associates(a, front, [c]);
    }
  }

  /** Text that produced nothing can be forgotten but for the state it left. */
  lemma FeedAfterQuiet(st: State, a: string, next: State, b: string)
    requires Feed(st, a).0 == next && Feed(st, a).1 == []
    ensures Feed(st, a + b).0 == Feed(next, b).0 && Feed(st, a + b).1 == Feed(next, b).1
  {
    FeedAppends(st, a, b);
  }

  lemma {:induction false} FeedPlain(st: State, s: string)
    requires '\n' !in s
    ensures Feed(st, s) == (st.(buffer := st.buffer + s), [])
  {
    if s != "" {
      FeedPlain(st, s[..|s| - 1]);
      assert st.buffer + s == (st.buffer + s[..|s| - 1]) + [s[|s| - 1]];
      assert s[|s| - 1] != '\n';
    } else {
      assert st.buffer + s == st.buffer;
    }
  }

  lemma FeedLine(st: State, line: string)
    requires st.buffer == "" && '\n' !in line
    ensures Feed(st, line + "\n").0 == Line(st, TrimCr(line)).0
    ensures Feed(st, line + "\n").1 == Emitted(Line(st, TrimCr(line)).1)
  {
    FeedPlain(st, line);
    assert st.buffer + line == line;
    assert st.(buffer := line).(buffer := "") == st;
    FeedNext(st, line, '\n');
    assert line + "\n" == line + ['\n'];
  }

  /** What a state amounts to once the complete lines in its buffer are read. */
  function Settled(st: State): (r: (State, seq<SseEvent>)) { Feed(st.(buffer := ""), st.buffer) }

  lemma SettledWhole(st: State)
    requires '\n' !in st.buffer
    ensures Settled(st).0 == st && Settled(st).1 == []
  {
    FeedPlain(st.(buffer := ""), st.buffer);
    assert "" + st.buffer == st.buffer;
  }

  lemma SettledAppends(st: State, chunk: string)
    requires '\n' !in st.buffer
    ensures Settled(st.(buffer := st.buffer + chunk)).0 == Feed(st, chunk).0
    ensures Settled(st.(buffer := st.buffer + chunk)).1 == Feed(st, chunk).1
  {
    SettledWhole(st);
    FeedAppends(st.(buffer := ""), st.buffer, chunk);
  }

  /** Having handed out `events`, a parser at `now` will come to what one at `start` would. */
  ghost predicate OnCourse(start: State, events: seq<SseEvent>, now: State)
  {
    Settled(start).0 == Settled(now).0 && Settled(start).1 == events + Settled(now).1
  }

  lemma StaysOnCourse(start: State, events: seq<SseEvent>, now: State, found: Option<SseEvent>, next: State)
    requires OnCourse(start, events, now)
    requires Settled(now).0 == Settled(next).0 && Settled(now).1 == Emitted(found) + Settled(next).1
    ensures OnCourse(start, if found.Some? then events + [found.value] else events, next)
  {
    Associates(events, Emitted(found), Settled(next).1);
    assert events + Emitted(found) == if found.Some? then events + [found.value] else events;
  }

  lemma Arrives(start: State, events: seq<SseEvent>, now: State)
    requires OnCourse(start, events, now) && '\n' !in now.buffer
    ensures Settled(start).0 == now && Settled(start).1 == events
  {
    SettledWhole(now);
  }

  /** Reading the first complete line early changes nothing. */
  lemma SettledStep(st: State, line: string, rest: string)
    requires st.buffer == line + "\n" + rest && '\n' !in line
    ensures var (next, event) := Line(st.(buffer := rest), TrimCr(line));
            Settled(st).0 == Settled(next).0 && Settled(st).1 == Emitted(event) + Settled(next).1
  {
    var (next, event) := Line(st.(buffer := rest), TrimCr(line));
    var bare := st.(buffer := "");
    assert Line(bare, TrimCr(line)) == (next.(buffer := ""), event) && next.buffer == rest;
    FeedLine(bare, line);
    FeedAppends(bare, line + "\n", rest);
  }

  // ---------------------------------------------------------------- the parser

  class SseParser {
    var buffer: string
    var event: string
    var data: seq<string>
    var id: Option<string>

    function AsState(): (st: State)
      reads this
    {
      State(buffer, event, data, id)
    }

    ghost predicate Valid()
      reads this
    {
      '\n' !in buffer
    }

    constructor ()
      ensures Valid() && AsState() == FRESH
    {
      buffer, event, data, id := "", "", [], None;
    }

    method DispatchEvent() returns (found: Option<SseEvent>)
      modifies this`event, this`data
      ensures (AsState(), found) == Dispatch(old(AsState()))
    {
      if data == [] && event == "" {
        return None;
      }
      found := Some(SseEvent(event, Join(data), id));
      event, data := "", [];
    }

    method OneLine(line: string) returns (found: Option<SseEvent>)
      modifies this`event, this`data, this`id
      ensures (AsState(), found) == Line(old(AsState()), line)
    {
      found := None;
      if line == "" {
        found := DispatchEvent();
        return;
      }
      if line[0] == ':' {
        return;
      }
      var (field, value) := Split(line);
      if field == "event" {
        event := value;
      } else if field == "data" {
        data := data + [value];
      } else if field == "id" {
        id := Some(value);
      }
    }

    /** Drain the first complete line and read it. */
    method TakeLine(position: nat) returns (found: Option<SseEvent>)
      requires IndexOf(buffer, '\n') == Some(position)
      modifies this
      ensures |buffer| < |old(buffer)|
      ensures Settled(old(AsState())).0 == Settled(AsState()).0
      ensures Settled(old(AsState())).1 == Emitted(found) + Settled(AsState()).1
    {
      var line, rest := buffer[..position], buffer[position + 1..];
      assert buffer == line + "\n" + rest;
      SettledStep(AsState(), line, rest);
      buffer := rest;
      found := OneLine(TrimCr(line));
    }

    /** Takes lines off the front of the buffer for as long as it holds a newline. */
    method Push(chunk: string) returns (events: seq<SseEvent>)
      requires Valid()
      modifies this
      ensures Valid() && AsState() == Feed(old(AsState()), chunk).0 && events == Feed(old(AsState()), chunk).1
    {
      SettledAppends(AsState(), chunk);
      buffer := buffer + chunk;
      events := [];
      ghost var start := AsState();
      var position := IndexOf(buffer, '\n');
      while position.Some?
        invariant position == IndexOf(buffer, '\n')
        invariant OnCourse(start, events, AsState())
        decreases |buffer|
      {
        ghost var heard, now := events, AsState();
        var found := TakeLine(position.value);
        if found.Some? {
          events := events + [found.value];
        }
        StaysOnCourse(start, heard, now, found, AsState());
        position := IndexOf(buffer, '\n');
      }
      Arrives(start, events, AsState());
    }
  }

  /** Pushing chunks one after another. */
  function PushAll(st: State, chunks: seq<string>): (r: (State, seq<SseEvent>))
  {
    if chunks == [] then (st, [])
    else
      var (before, out) := PushAll(st, chunks[..|chunks| - 1]);
      var (after, more) := Feed(before, chunks[|chunks| - 1]);
      (after, out + more)
  }

  function Concat(chunks: seq<string>): (s: string)
  {
    if chunks == [] then "" else Concat(chunks[..|chunks| - 1]) + chunks[|chunks| - 1]
  }

  /** Where the network splits the text makes no difference. */
  lemma {:induction false} ChunksDoNotMatter(st: State, chunks: seq<string>)
    ensures PushAll(st, chunks).0 == Feed(st, Concat(chunks)).0 && PushAll(st, chunks).1 == Feed(st, Concat(chunks)).1
  {
    if chunks != [] {
      ChunksDoNotMatter(st, chunks[..|chunks| - 1]);
      FeedAppends(st, Concat(chunks[..|chunks| - 1]), chunks[|chunks| - 1]);
    }
  }

  // ---------------------------------------------------------------- what the server writes

  datatype Wire = Event(id: nat, kind: string, data: string) | Gap(data: string) | Comment(text: string)

  function Field(name: string, value: string): (s: string) { name + ": " + value + "\n" }

  lemma FieldText(name: string, value: string)
    ensures Field(name, value) == name + ": " + value + "\n"
  {
  }

  function Body(kind: string, data: string): (s: string) { Field("event", kind) + (Field("data", data) + "\n") }

  function Text(w: Wire): (s: string)
  {
    match w
    case Event(id, kind, data) => Field("id", Decimal(id)) + Body(kind, data)
    case Gap(data) => Body("stream.gap", data)
    case Comment(text) => ": " + text + "\n" + "\n"
  }

  /** The lines of an event on the wire. */
  lemma EventText(id: nat, kind: string, data: string)
    ensures Text(Event(id, kind, data)) ==
            ("id: " + Decimal(id) + "\n") + (("event: " + kind + "\n") + (("data: " + data + "\n") + "\n"))
  {
    FieldText("id", Decimal(id));
    FieldText("event", kind);
    FieldText("data", data);
  }

  function Written(ws: seq<Wire>): (s: string)
  {
    if ws == [] then "" else Written(ws[..|ws| - 1]) + Text(ws[|ws| - 1])
  }

  /** One line of text that no reader of lines would cut or trim. */
  predicate Clean(s: string) { '\n' !in s && (s == "" || s[|s| - 1] != '\r') }

  predicate CleanWire(w: Wire)
  {
    match w
    case Event(_, kind, data) => Clean(kind) && Clean(data)
    case Gap(data) => Clean(data)
    case Comment(text) => Clean(text)
  }

  function IdAfter(last: Option<string>, w: Wire): (id: Option<string>)
  {
    if w.Event? then Some(Decimal(w.id)) else last
  }

  /** The id a client would resume from after these frames. */
  function LastId(ws: seq<Wire>): (id: Option<string>)
  {
    if ws == [] then None else IdAfter(LastId(ws[..|ws| - 1]), ws[|ws| - 1])
  }

  /** What a frame means: an event with its id, a gap with the id before it, a comment nothing. */
  function MeantBy(last: Option<string>, w: Wire): (events: seq<SseEvent>)
  {
    if w.Event? then [SseEvent(w.kind, w.data, Some(Decimal(w.id)))]
    else if w.Gap? then [SseEvent("stream.gap", w.data, last)]
    else []
  }

  function Meant(ws: seq<Wire>): (events: seq<SseEvent>)
  {
    if ws == [] then [] else Meant(ws[..|ws| - 1]) + MeantBy(LastId(ws[..|ws| - 1]), ws[|ws| - 1])
  }

  lemma {:induction false} IndexAfter(name: string, rest: string, c: char)
    requires c !in name
    ensures IndexOf(name + [c] + rest, c) == Some(|name|)
  {
    var s := name + [c] + rest;
    if name != "" {
      assert s[1..] == name[1..] + [c] + rest;
      assert s[0] == name[0];
      IndexAfter(name[1..], rest, c);
    }
  }

  /** A field line reads back as the field it was written from. */
  lemma SplitField(name: string, value: string)
    requires ':' !in name
    ensures Split(name + ": " + value) == (name, value)
  {
    var line := name + ": " + value;
    assert line == name + [':'] + (" " + value);
    IndexAfter(name, " " + value, ':');
    assert line[..|name|] == name && line[|name| + 1..] == " " + value;
    assert (" " + value)[1..] == value;
  }

  /** How any other line is split: a value needs no space before it, loses one only, and is empty without a colon. */
  lemma SplitMeans(name: string, value: string)
    requires ':' !in name
    ensures Split(name) == (name, "")
    ensures Split(name + ":" + value) ==
            (name, if |value| > 0 && value[0] == ' ' then value[1..] else value)
  {
    var line := name + ":" + value;
    assert line == name + [':'] + value;
    IndexAfter(name, value, ':');
    assert line[..|name|] == name && line[|name| + 1..] == value;
  }

  lemma FeedField(st: State, name: string, value: string)
    requires st.buffer == "" && name != "" && ':' !in name && '\n' !in name && Clean(value)
    ensures Feed(st, name + ": " + value + "\n").0 ==
            if name == "event" then st.(event := value)
            else if name == "data" then st.(data := st.data + [value])
            else if name == "id" then st.(id := Some(value))
            else st
    ensures Feed(st, name + ": " + value + "\n").1 == []
  {
    var line := name + ": " + value;
    assert '\n' !in line;
    assert line[|line| - 1] != '\r';
    assert line[0] == name[0] && line[0] in name;
    FeedLine(st, line);
    SplitField(name, value);
  }

  lemma FeedBlank(st: State)
    requires st.buffer == ""
    ensures Feed(st, "\n").0 == Dispatch(st).0 && Feed(st, "\n").1 == Emitted(Dispatch(st).1)
  {
    FeedLine(st, "");
    assert "" + "\n" == "\n";
  }

  /** The text is these lines with newlines between them. */
  ghost predicate Joins(lines: seq<string>, text: string)
  {
    match |lines|
    case 0 => text == ""
    case 1 => text == lines[0]
    case _ => exists front :: Joins(lines[..|lines| - 1], front) && text == front + "\n" + lines[|lines| - 1]
  }

  lemma {:induction false} JoinJoins(lines: seq<string>)
    ensures Joins(lines, Join(lines))
  {
    if |lines| > 1 {
      JoinJoins(lines[..|lines| - 1]);
    }
  }

  /** A blank line ends an event if there is anything to it: its name, its lines of data joined by newlines, and the
      last id
      there was. */
  lemma BlankMeans(st: State)
    requires st.buffer == ""
    ensures st.event == "" && st.data == [] ==> Feed(st, "\n") == (st, [])
    ensures st.event != "" || st.data != [] ==>
              && Feed(st, "\n").0 == State("", "", [], st.id) && |Feed(st, "\n").1| == 1
              && var e := Feed(st, "\n").1[0]; e.event == st.event && e.id == st.id && Joins(st.data, e.data)
  {
    FeedBlank(st);
    JoinJoins(st.data);
  }

  /** The last two lines of every frame that carries data. */
  lemma FeedTail(st: State, data: string)
    requires st.buffer == "" && st.data == [] && Clean(data)
    ensures Feed(st, Field("data", data) + "\n").0 == State("", "", [], st.id)
    ensures Feed(st, Field("data", data) + "\n").1 == [SseEvent(st.event, data, st.id)]
  {
    FeedField(st, "data", data);
    assert st.data + [data] == [data];
    FeedAfterQuiet(st, Field("data", data), st.(data := [data]), "\n");
    FeedBlank(st.(data := [data]));
  }

  lemma FeedBody(st: State, kind: string, data: string)
    requires st.buffer == "" && st.data == [] && Clean(kind) && Clean(data)
    ensures Feed(st, Body(kind, data)).0 == State("", "", [], st.id)
    ensures Feed(st, Body(kind, data)).1 == [SseEvent(kind, data, st.id)]
  {
    FeedField(st, "event", kind);
    FeedAfterQuiet(st, Field("event", kind), st.(event := kind), Field("data", data) + "\n");
    FeedTail(st.(event := kind), data);
  }

  lemma DecimalIsClean(n: nat)
    ensures Clean(Decimal(n))
  {
    var s := Decimal(n);
    assert IsDigit(s[|s| - 1]);
  }

  lemma FeedComment(st: State, text: string)
    requires st.buffer == "" && st.data == [] && st.event == "" && Clean(text)
    ensures Feed(st, ": " + text + "\n" + "\n").0 == st && Feed(st, ": " + text + "\n" + "\n").1 == []
  {
    var line := ": " + text;
    assert '\n' !in line && line[|line| - 1] != '\r' && line[0] == ':';
    FeedLine(st, line);
    FeedAppends(st, line + "\n", "\n");
    FeedBlank(st);
  }

  lemma FeedWire(last: Option<string>, w: Wire)
    requires CleanWire(w)
    ensures Feed(State("", "", [], last), Text(w)).0 == State("", "", [], IdAfter(last, w))
    ensures Feed(State("", "", [], last), Text(w)).1 == MeantBy(last, w)
  {
    var st := State("", "", [], last);
    if w.Event? {
      DecimalIsClean(w.id);
      FeedField(st, "id", Decimal(w.id));
      FeedAfterQuiet(st, Field("id", Decimal(w.id)), st.(id := Some(Decimal(w.id))), Body(w.kind, w.data));
      FeedBody(st.(id := Some(Decimal(w.id))), w.kind, w.data);
    } else if w.Gap? {
      assert Clean("stream.gap");
      FeedBody(st, "stream.gap", w.data);
    } else {
      FeedComment(st, w.text);
    }
  }

  lemma {:induction false} WiresReadBack(ws: seq<Wire>)
    requires forall i | 0 <= i < |ws| :: CleanWire(ws[i])
    ensures Feed(FRESH, Written(ws)).0 == State("", "", [], LastId(ws)) && Feed(FRESH, Written(ws)).1 == Meant(ws)
  {
    if ws != [] {
      var front, w := ws[..|ws| - 1], ws[|ws| - 1];
      WiresReadBack(front);
      FeedAppends(FRESH, Written(front), Text(w));
      FeedWire(LastId(front), w);
    }
  }

  /** Text broken off anywhere reads as the frames it holds whole, and no other. */
  lemma CutTextIsPrefix(ws: seq<Wire>, text: string)
    requires (forall i | 0 <= i < |ws| :: CleanWire(ws[i])) && text <= Written(ws)
    ensures Feed(FRESH, text).1 <= Meant(ws)
    ensures text == Written(ws) ==> Feed(FRESH, text).1 == Meant(ws)
  {
    var rest := Written(ws)[|text|..];
    WiresReadBack(ws);
    FeedAppends(FRESH, text, rest);
    assert text + rest == Written(ws);
  }

  /** Whatever frames the server writes and however the text is split on its way, the parser hands out
      exactly those events, in order. */
  lemma StreamRoundTrip(ws: seq<Wire>, chunks: seq<string>)
    requires forall i | 0 <= i < |ws| :: CleanWire(ws[i])
    requires Concat(chunks) == Written(ws)
    ensures PushAll(FRESH, chunks).1 == Meant(ws)
  {
    ChunksDoNotMatter(FRESH, chunks);
    WiresReadBack(ws);
  }

  // ---------------------------------------------------------------- exactly which data survives

  function DataLength(events: seq<SseEvent>): (n: nat)
  {
    if events == [] then 0 else DataLength(events[..|events| - 1]) + |events[|events| - 1].data|
  }

  function Newlines(s: string): (n: nat)
    ensures n <= |s|
  {
    if s == "" then 0 else Newlines(s[..|s| - 1]) + (if s[|s| - 1] == '\n' then 1 else 0)
  }

  /** Text the parser is holding. */
  function Holding(st: State): (n: nat) { |Join(st.data)| + |st.buffer| }

  lemma JoinGrows(lines: seq<string>, line: string)
    ensures |Join(lines + [line])| <= |Join(lines)| + 1 + |line|
  {
    if lines == [] {
      assert lines + [line] == [line];
    } else {
      assert (lines + [line])[..|lines|] == lines;
    }
  }

  lemma DataLengthGrows(events: seq<SseEvent>, event: Option<SseEvent>)
    ensures DataLength(events + Emitted(event)) == DataLength(events) + (if event.Some? then |event.value.data| else 0)
  {
    if event.Some? {
      assert (events + Emitted(event))[..|events|] == events;
    } else {
      assert events + Emitted(event) == events;
    }
  }

  /** No character yields more than itself, and a newline yields nothing. */
  lemma CharHolds(st: State, c: char)
    ensures var (next, event) := FeedChar(st, c);
            Holding(next) + (if event.Some? then |event.value.data| else 0) <=
              Holding(st) + (if c == '\n' then 0 else 1)
  {
    if c == '\n' {
      var line := TrimCr(st.buffer);
      if line != "" && line[0] != ':' && Split(line).0 == "data" {
        assert |Split(line).1| + 1 <= |line|;
        JoinGrows(st.data, Split(line).1);
      }
    }
  }

  lemma {:induction false} TextHolds(st: State, text: string)
    ensures var (next, out) := Feed(st, text);
            Holding(next) + DataLength(out) <= Holding(st) + |text| - Newlines(text)
  {
    if text != "" {
      var front, c := text[..|text| - 1], text[|text| - 1];
      TextHolds(st, front);
      assert front + [c] == text;
      FeedNext(st, front, c);
      var (before, out) := Feed(st, front);
      CharHolds(before, c);
      DataLengthGrows(out, FeedChar(before, c).1);
    }
  }

  lemma {:induction false} TrimTail(front: string, s: string)
    requires front != "" && front[|front| - 1] != '\r'
    ensures TrimCr(front + s) == front + TrimCr(s)
  {
    if s != "" && s[|s| - 1] == '\r' {
      assert (front + s)[..|front + s| - 1] == front + s[..|s| - 1];
      TrimTail(front, s[..|s| - 1]);
    } else if s == "" {
      assert front + s == front;
    }
  }

  lemma FeedDataLine(st: State, line: string)
    requires st.buffer == "" && '\n' !in line
    ensures Feed(st, Field("data", line)).0 == st.(data := st.data + [TrimCr(line)])
            && Feed(st, Field("data", line)).1 == []
  {
    var whole := "data" + ": " + line;
    assert '\n' !in whole;
    FeedLine(st, whole);
    TrimTail("data" + ": ", line);
    SplitField("data", TrimCr(line));
  }

  lemma NewlinesGrow(s: string)
    ensures Newlines(s + "\n" + "\n") == Newlines(s) + 2
  {
    assert (s + "\n")[..|s|] == s;
    assert (s + "\n" + "\n")[..|s| + 1] == s + "\n";
  }

  /** Of what follows a complete data line, no more can come out than goes in, newlines apart. */
  lemma RestShrinks(st: State, line: string, rest: string)
    requires st.buffer == "" && st.data == [line]
    ensures DataLength(Feed(st, rest + "\n" + "\n").1) <= |line| + |rest|
  {
    TextHolds(st, rest + "\n" + "\n");
    NewlinesGrow(rest);
  }

  lemma FieldSplits(line: string, rest: string)
    ensures Field("data", line + "\n" + rest) + "\n" == Field("data", line) + (rest + "\n" + "\n")
  {
  }

  /** Data with a newline in it comes out shorter than it went in, whatever it says. */
  lemma BrokenDataShrinks(st: State, line: string, rest: string)
    requires st.buffer == "" && st.data == [] && '\n' !in line
    ensures DataLength(Feed(st, Field("data", line + "\n" + rest) + "\n").1) <= |line| + |rest|
  {
    FieldSplits(line, rest);
    FeedDataLine(st, line);
    assert st.data + [TrimCr(line)] == [TrimCr(line)];
    FeedAfterQuiet(st, Field("data", line), st.(data := [TrimCr(line)]), rest + "\n" + "\n");
    RestShrinks(st.(data := [TrimCr(line)]), TrimCr(line), rest);
  }

  lemma FeedName(st: State, kind: string, data: string)
    requires st.buffer == "" && Clean(kind)
    ensures Feed(st, Body(kind, data)).1 == Feed(st.(event := kind), Field("data", data) + "\n").1
  {
    FeedField(st, "event", kind);
    FeedAfterQuiet(st, Field("event", kind), st.(event := kind), Field("data", data) + "\n");
  }

  /** An event frame up to its data. */
  lemma FeedHeader(last: Option<string>, id: nat, kind: string, data: string)
    requires Clean(kind)
    ensures Feed(State("", "", [], last), Text(Event(id, kind, data))).1 ==
            Feed(State("", kind, [], Some(Decimal(id))), Field("data", data) + "\n").1
  {
    var st, named := State("", "", [], last), State("", "", [], Some(Decimal(id)));
    DecimalIsClean(id);
    FeedField(st, "id", Decimal(id));
    FeedAfterQuiet(st, Field("id", Decimal(id)), named, Body(kind, data));
    FeedName(named, kind, data);
  }

  lemma TrimmedDataIsLost(st: State, data: string)
    requires st.buffer == "" && st.data == [] && '\n' !in data && !Clean(data)
    ensures Feed(st, Field("data", data) + "\n").1 != [SseEvent(st.event, data, st.id)]
  {
    FeedDataLine(st, data);
    assert st.data + [TrimCr(data)] == [TrimCr(data)];
    var next := st.(data := [TrimCr(data)]);
    FeedAfterQuiet(st, Field("data", data), next, "\n");
    FeedBlank(next);
    assert Emitted(Dispatch(next).1) == [SseEvent(st.event, TrimCr(data), st.id)];
  }

  lemma UncleanDataIsLost(st: State, data: string)
    requires st.buffer == "" && st.data == [] && !Clean(data)
    ensures Feed(st, Field("data", data) + "\n").1 != [SseEvent(st.event, data, st.id)]
  {
    if '\n' in data {
      var k := IndexOf(data, '\n').value;
      BrokenDataShrinks(st, data[..k], data[k + 1..]);
      assert data == data[..k] + "\n" + data[k + 1..];
      assert DataLength([SseEvent(st.event, data, st.id)]) == |data|;
    } else {
      TrimmedDataIsLost(st, data);
    }
  }

  /** A frame's data arrives whole exactly when it has no newline and no trailing carriage return. */
  lemma DataSurvivesExactly(last: Option<string>, id: nat, kind: string, data: string)
    requires Clean(kind)
    ensures var read := Feed(State("", "", [], last), Text(Event(id, kind, data))).1;
            read == [SseEvent(kind, data, Some(Decimal(id)))] <==> Clean(data)
  {
    if Clean(data) {
      FeedWire(last, Event(id, kind, data));
    } else {
      FeedHeader(last, id, kind, data);
      UncleanDataIsLost(State("", kind, [], Some(Decimal(id))), data);
    }
  }

  // ---------------------------------------------------------------- resuming

  const MAX_ID: nat := 0x7FFF_FFFF_FFFF_FFFF

  /** `streamCursor`: the query parameter before the header; nothing means the beginning; None is refused. */
  function StreamCursor(query: string, header: string): (cursor: Option<nat>)
  {
    var value := if query == "" then header else query;
    if value == "" then Some(0)
    else
      var n := ParseInt(value);
      if n.None? || n.value < 0 || n.value > MAX_ID then None else Some(n.value)
  }

  /** What a stream may be asked to resume from: the query's id, or without one the header's, or the beginning; in
      digits, at
      most with a plus sign, and no more than 63 bits. */
  lemma CursorsAsked(query: string, header: string, n: nat)
    ensures StreamCursor("", "") == Some(0)
    ensures query != "" ==> StreamCursor(query, header) == StreamCursor(query, "")
    ensures StreamCursor("", header) == StreamCursor(header, "")
    ensures n < 0x8000_0000_0000_0000 ==>
              StreamCursor(Decimal(n), "") == Some(n) && StreamCursor("+" + Decimal(n), "") == Some(n)
    ensures n >= 0x8000_0000_0000_0000 ==> StreamCursor(Decimal(n), "") == None
    ensures n > 0 ==> StreamCursor("-" + Decimal(n), "") == None
  {
    ParseDecimal(n);
    ParseSigned(n);
  }

  /** Anything but digits after a sign is refused. */
  lemma NoOtherCursors(text: string, i: nat)
    requires i < |text| && !IsDigit(text[i]) && (i == 0 ==> text[0] != '+' && text[0] != '-')
    ensures StreamCursor(text, "") == None
  {
    NotANumber(text, i);
  }

  lemma {:induction false} LatestId(ws: seq<Wire>, n: nat)
    requires n < |ws| && ws[n].Event? && forall i | n < i < |ws| :: !ws[i].Event?
    ensures LastId(ws) == Some(Decimal(ws[n].id))
  {
    if n < |ws| - 1 {
      LatestId(ws[..|ws| - 1], n);
    }
  }

  /** The id of the last event a client read is a cursor that resumes right after that event. */
  lemma ReadIdIsCursor(ws: seq<Wire>, n: nat, chunks: seq<string>)
    requires n < |ws| && ws[n].Event? && ws[n].id < 0x8000_0000_0000_0000 && (forall i | n < i < |ws| :: !ws[i].Event?)
    requires (forall i | 0 <= i < |ws| :: CleanWire(ws[i])) && Concat(chunks) == Written(ws)
    ensures var id := PushAll(FRESH, chunks).0.id;
            id.Some? && StreamCursor("", id.value) == Some(ws[n].id) && StreamCursor(id.value, "") == Some(ws[n].id)
  {
    ChunksDoNotMatter(FRESH, chunks);
    WiresReadBack(ws);
    LatestId(ws, n);
    ParseDecimal(ws[n].id);
  }
}
