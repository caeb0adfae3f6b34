/**
  The console at the far end of the wire. The server writes text to an open connection; it arrives piece by
  piece; the console parses what has arrived, changes what it shows, and remembers the last id it read. A
  connection may end anywhere in the text, and the console then resumes from that id.
 */
module OverTheWire {
  import opened Prelude
  import opened Stream
  import opened Convergence
  import Lifecycle
  import Sse

  /** The body of a frame as JSON, and the alert a console reads out of it. */
  datatype Encoding = Encoding(payload: Frame -> string, alertId: string -> Option<nat>, gap: (nat, nat) -> string)

  /** JSON text is one clean line, and names the alert it is about. */
  ghost predicate Encodes(json: Encoding)
  {
    forall f: Frame :: Sse.Clean(json.payload(f)) && json.alertId(json.payload(f)) == Some(f.Alert())
  }

  const REMOVED := "alert.removed"
  const GAP := "stream.gap"

  function KindText(f: Frame): (kind: string)
    ensures Sse.Clean(kind) && (kind == REMOVED <==> f.Removed?) && kind != GAP
  {
    if f.Removed? then REMOVED
    else
      match f.event.kind
      case EventCreated => "alert.created"
      case EventUpdated => "alert.updated"
      case EventResolved => "alert.resolved"
  }

  function WireOf(json: Encoding, f: Frame): (w: Sse.Wire) { Sse.Event(f.Id(), KindText(f), json.payload(f)) }

  /** What a frame is called on the wire: after what happened to the alert, or `alert.removed` when that is all the
      reader
      may know; with its own id, and its own body. */
  lemma FramesAreNamed(json: Encoding, f: Frame)
    ensures var w := WireOf(json, f);
            && w.Event? && w.id == f.Id() && w.data == json.payload(f)
            && (f.Removed? ==> w.kind == "alert.removed")
            && (f.Ordinary? && f.event.kind.EventCreated? ==> w.kind == "alert.created")
            && (f.Ordinary? && f.event.kind.EventUpdated? ==> w.kind == "alert.updated")
            && (f.Ordinary? && f.event.kind.EventResolved? ==> w.kind == "alert.resolved")
  {
  }

  function WiresOf(json: Encoding, frames: seq<Frame>): (ws: seq<Sse.Wire>)
  {
    if frames == [] then [] else WiresOf(json, frames[..|frames| - 1]) + [WireOf(json, frames[|frames| - 1])]
  }

  // ---------------------------------------------------------------- what a console does with parsed events

  function HearEvent(json: Encoding, held: set<nat>, e: Sse.SseEvent): (r: set<nat>)
  {
    var id := json.alertId(e.data);
    if e.event == GAP || id.None? then held else if e.event == REMOVED then held - {id.value} else held + {id.value}
  }

  function HearEvents(json: Encoding, held: set<nat>, events: seq<Sse.SseEvent>): (r: set<nat>)
  {
    if events == [] then held
    else HearEvent(json, HearEvents(json, held, events[..|events| - 1]), events[|events| - 1])
  }

  /** The id an event carries moves the cursor forward, never back. */
  function FollowOne(cursor: nat, e: Sse.SseEvent): (r: nat)
  {
    var id := if e.id.Some? then ParseInt(e.id.value) else None;
    if e.event != GAP && id.Some? && cursor < id.value then id.value else cursor
  }

  function Follow(cursor: nat, events: seq<Sse.SseEvent>): (r: nat)
  {
    if events == [] then cursor else FollowOne(Follow(cursor, events[..|events| - 1]), events[|events| - 1])
  }

  /** How many of these events are about alerts. */
  function AlertEvents(events: seq<Sse.SseEvent>): (n: nat)
  {
    if events == [] then 0
    else AlertEvents(events[..|events| - 1]) + (if events[|events| - 1].event == GAP then 0 else 1)
  }

  // ---------------------------------------------------------------- the whole, down to the text

  /** The server wrote `wires` to the open connection, as text: `got` has reached the parser, which is now in this
      state, and `coming` has not. `held` is what the console shows, and `cursor` where it would resume. The frames it
      read on this connection, the ones still to be read, and the ones it heard since its list are kept to say
      what the text amounts to. */
  datatype Link = Link(system: System, wires: seq<Sse.Wire>, got: string, coming: string, parser: Sse.State,
                       held: set<nat>, cursor: nat, read: seq<Frame>, flight: seq<Frame>, heard: seq<Frame>)

  const IDLE := Link(START, [], "", "", Sse.FRESH, {}, 0, [], [], [])

  datatype Move =
    | Act(op: Lifecycle.Op, holes: seq<nat>)
    | PruneOlder(cutoff: int)
    | FetchCursor
    | FetchList
    | Turn
    | KeepAlive
    | Arrive(n: nat)
    | Break
    | Refetch

  /** The server writes to the open connection. */
  function Sent(l: Link, wires: seq<Sse.Wire>, frames: seq<Frame>): (out: Link)
  {
    l.(wires := l.wires + wires, coming := l.coming + Sse.Written(wires), flight := l.flight + frames)
  }

  /** A new connection: only a greeting is written, and the parser starts afresh. */
  function Connected(l: Link, system: System): (out: Link)
  {
    Sent(l.(system := system, wires := [], got := "", coming := "", parser := Sse.FRESH, read := [], flight := []),
         [Sse.Comment("connected")], [])
  }

  /** What the server writes in a turn. */
  function TurnWires(json: Encoding, before: System, frames: seq<Frame>): (ws: seq<Sse.Wire>)
    requires before.console.Listening?
  {
    if DueGap(before.Serving(), before.console.pos)
    then [Sse.Gap(json.gap(before.console.pos, before.deletedThrough))]
    else WiresOf(json, frames)
  }

  ghost function Turned(rx: Regex, r: Reader, json: Encoding, l: Link): (out: Link)
    requires l.system.console.Listening?
  {
    var after := Convergence.Next(rx, r, l.system, Poll);
    var n := |l.system.console.delivered|;
    var frames := if n <= |after.console.delivered| then after.console.delivered[n..] else [];
    Sent(l.(system := after), TurnWires(json, l.system, frames), frames)
  }

  /** The next characters arrive, and the console acts on the events the parser makes of them. */
  function Received(json: Encoding, l: Link, n: nat): (out: Link)
    requires n <= |l.coming|
  {
    var (parser, events) := Sse.Feed(l.parser, l.coming[..n]);
    var k := Min(AlertEvents(events), |l.flight|);
    l.(got := l.got + l.coming[..n], coming := l.coming[n..], parser := parser,
       held := HearEvents(json, l.held, events), cursor := Follow(l.cursor, events),
       read := l.read + l.flight[..k], flight := l.flight[k..], heard := l.heard + l.flight[..k])
  }

  /** The console takes over a list just read. */
  function TakeList(l: Link, system: System): (out: Link)
    requires system.console.Listening?
  {
    l.(system := system, held := system.console.listing, cursor := system.console.start, heard := [])
  }

  ghost function Moved(rx: Regex, r: Reader, json: Encoding, l: Link, move: Move): (out: Link)
  {
    var listening := l.system.console.Listening?;
    match move
    case Act(op, holes) => l.(system := Convergence.Next(rx, r, l.system, Convergence.Act(op, holes)))
    case PruneOlder(cutoff) => l.(system := Convergence.Next(rx, r, l.system, Convergence.PruneOlder(cutoff)))
    case FetchCursor => l.(system := Convergence.Next(rx, r, l.system, ReadCursor))
    case FetchList =>
      var after := Convergence.Next(rx, r, l.system, ReadList);
      if l.system.console.HasCursor? then Connected(TakeList(l, after), after) else l
    case Turn => if listening then Turned(rx, r, json, l) else l
    case KeepAlive => Sent(l, [Sse.Comment("keepalive")], [])
    case Arrive(n) => if listening && n <= |l.coming| then Received(json, l, n) else l
    case Break => if listening then Connected(l, Convergence.Next(rx, r, l.system, Resume(|l.heard|))) else l
    case Refetch =>
      if listening && |l.heard| <= |l.system.console.delivered|
      then TakeList(l, Convergence.Next(rx, r, l.system, Relist(|l.heard|)))
      else l
  }

  ghost function Ran(rx: Regex, r: Reader, json: Encoding, moves: seq<Move>): (l: Link)
  {
    if moves == [] then IDLE else Moved(rx, r, json, Ran(rx, r, json, moves[..|moves| - 1]), moves[|moves| - 1])
  }

  // ---------------------------------------------------------------- text and frames

  /** These frames, with comments anywhere between them. */
  ghost predicate Carries(json: Encoding, wires: seq<Sse.Wire>, frames: seq<Frame>)
  {
    if wires == [] then frames == []
    else
      var n := |wires| - 1;
      if wires[n].Comment? then Sse.Clean(wires[n].text) && Carries(json, wires[..n], frames)
      else (
        && frames != [] && wires[n] == WireOf(json, frames[|frames| - 1])
        && Carries(json, wires[..n], frames[..|frames| - 1]))
  }

  lemma CarriesComment(json: Encoding, wires: seq<Sse.Wire>, frames: seq<Frame>, text: string)
    requires Carries(json, wires, frames) && Sse.Clean(text)
    ensures Carries(json, wires + [Sse.Comment(text)], frames)
  {
    assert (wires + [Sse.Comment(text)])[..|wires|] == wires;
  }

  lemma CarriesFrame(json: Encoding, wires: seq<Sse.Wire>, frames: seq<Frame>, f: Frame)
    requires Carries(json, wires, frames)
    ensures Carries(json, wires + [WireOf(json, f)], frames + [f])
  {
    assert (wires + [WireOf(json, f)])[..|wires|] == wires && (frames + [f])[..|frames|] == frames;
  }

  lemma Regrouped<T>(a: seq<T>, b: seq<T>, x: T)
    ensures a + (b + [x]) == (a + b) + [x]
  {
  }

  lemma WiresOfNext(json: Encoding, frames: seq<Frame>, f: Frame)
    ensures WiresOf(json, frames + [f]) == WiresOf(json, frames) + [WireOf(json, f)]
  {
    assert (frames + [f])[..|frames|] == frames;
  }

  lemma CarriesOneMore(json: Encoding, wires: seq<Sse.Wire>, frames: seq<Frame>, front: seq<Frame>, f: Frame)
    requires Carries(json, wires + WiresOf(json, front), frames + front)
    ensures Carries(json, wires + WiresOf(json, front + [f]), frames + (front + [f]))
  {
    WiresOfNext(json, front, f);
    CarriesFrame(json, wires + WiresOf(json, front), frames + front, f);
    Regrouped(wires, WiresOf(json, front), WireOf(json, f));
    Regrouped(frames, front, f);
  }

  lemma {:induction false} CarriesFrames(json: Encoding, wires: seq<Sse.Wire>, frames: seq<Frame>, more: seq<Frame>)
    requires Carries(json, wires, frames)
    ensures Carries(json, wires + WiresOf(json, more), frames + more)
  {
    if more == [] {
      assert wires + [] == wires && frames + [] == frames;
    } else {
      var front, f := more[..|more| - 1], more[|more| - 1];
      assert more == front + [f];
      CarriesFrames(json, wires, frames, front);
      CarriesOneMore(json, wires, frames, front, f);
    }
  }

  lemma {:induction false} CarriedAreClean(json: Encoding, wires: seq<Sse.Wire>, frames: seq<Frame>, i: nat)
    requires Encodes(json) && Carries(json, wires, frames) && i < |wires|
    ensures Sse.CleanWire(wires[i])
  {
    var n := |wires| - 1;
    if i < n {
      CarriedAreClean(json, wires[..n], if wires[n].Comment? then frames else frames[..|frames| - 1], i);
    }
  }

  /** The event a frame reads back as. */
  function EventOf(json: Encoding, f: Frame): (e: Sse.SseEvent)
  {
    Sse.SseEvent(KindText(f), json.payload(f), Some(Decimal(f.Id())))
  }

  /** The events these frames read back as. */
  function EventsOf(json: Encoding, frames: seq<Frame>): (events: seq<Sse.SseEvent>)
    ensures |events| == |frames|
  {
    if frames == [] then [] else EventsOf(json, frames[..|frames| - 1]) + [EventOf(json, frames[|frames| - 1])]
  }

  lemma EventsNext(json: Encoding, frames: seq<Frame>, f: Frame)
    ensures EventsOf(json, frames + [f]) == EventsOf(json, frames) + [EventOf(json, f)]
  {
    assert (frames + [f])[..|frames|] == frames;
  }

  lemma EventsAppendNext(json: Encoding, a: seq<Frame>, front: seq<Frame>, f: Frame)
    requires EventsOf(json, a + front) == EventsOf(json, a) + EventsOf(json, front)
    ensures EventsOf(json, a + (front + [f])) == EventsOf(json, a) + EventsOf(json, front + [f])
  {
    Regrouped(a, front, f);
    EventsNext(json, a + front, f);
    EventsNext(json, front, f);
    Regrouped(EventsOf(json, a), EventsOf(json, front), EventOf(json, f));
  }

  lemma {:induction false} EventsAppend(json: Encoding, a: seq<Frame>, b: seq<Frame>)
    ensures EventsOf(json, a + b) == EventsOf(json, a) + EventsOf(json, b)
  {
    if b == [] {
      assert a + [] == a;
    } else {
      var front, f := b[..|b| - 1], b[|b| - 1];
      assert b == front + [f];
      EventsAppend(json, a, front);
      EventsAppendNext(json, a, front, f);
    }
  }

  lemma {:induction false} MeaningOfWires(json: Encoding, wires: seq<Sse.Wire>, frames: seq<Frame>)
    requires Carries(json, wires, frames)
    ensures Sse.Meant(wires) == EventsOf(json, frames)
  {
    if wires != [] {
      var n := |wires| - 1;
      if wires[n].Comment? {
        MeaningOfWires(json, wires[..n], frames);
        assert Sse.Meant(wires[..n]) + [] == Sse.Meant(wires[..n]);
      } else {
        MeaningOfWires(json, wires[..n], frames[..|frames| - 1]);
      }
    }
  }

  lemma CarriedIsClean(json: Encoding, wires: seq<Sse.Wire>, frames: seq<Frame>)
    requires Encodes(json) && Carries(json, wires, frames)
    ensures forall i | 0 <= i < |wires| :: Sse.CleanWire(wires[i])
  {
    forall i | 0 <= i < |wires| ensures Sse.CleanWire(wires[i]) {
      CarriedAreClean(json, wires, frames, i);
    }
  }

  /** Text cut off anywhere yields the events of the whole frames in it, and no other. */
  lemma CutIsPrefix(json: Encoding, wires: seq<Sse.Wire>, frames: seq<Frame>, got: string)
    requires Encodes(json) && Carries(json, wires, frames) && got <= Sse.Written(wires)
    ensures Sse.Feed(Sse.FRESH, got).1 <= EventsOf(json, frames)
    ensures got == Sse.Written(wires) ==> Sse.Feed(Sse.FRESH, got).1 == EventsOf(json, frames)
  {
    CarriedIsClean(json, wires, frames);
    MeaningOfWires(json, wires, frames);
    Sse.CutTextIsPrefix(wires, got);
  }

  // ---------------------------------------------------------------- hearing

  lemma HearWire(json: Encoding, held: set<nat>, f: Frame)
    requires Encodes(json)
    ensures HearEvent(json, held, EventOf(json, f)) == Hear(held, f)
  {
  }

  lemma HearEventsNext(json: Encoding, held: set<nat>, cursor: nat, events: seq<Sse.SseEvent>, e: Sse.SseEvent)
    ensures HearEvents(json, held, events + [e]) == HearEvent(json, HearEvents(json, held, events), e)
    ensures Follow(cursor, events + [e]) == FollowOne(Follow(cursor, events), e)
    ensures AlertEvents(events + [e]) == AlertEvents(events) + (if e.event == GAP then 0 else 1)
  {
    assert (events + [e])[..|events|] == events;
  }

  /** Such events are heard as the frames are, and each counts. */
  lemma {:induction false} EventsAreHeard(json: Encoding, held: set<nat>, frames: seq<Frame>)
    requires Encodes(json)
    ensures HearEvents(json, held, EventsOf(json, frames)) == HearAll(held, frames)
    ensures AlertEvents(EventsOf(json, frames)) == |frames|
  {
    if frames != [] {
      var front, f := frames[..|frames| - 1], frames[|frames| - 1];
      EventsAreHeard(json, held, front);
      HearWire(json, HearAll(held, front), f);
      HearEventsNext(json, held, 0, EventsOf(json, front), EventOf(json, f));
    }
  }

  lemma FollowWire(json: Encoding, cursor: nat, f: Frame)
    requires cursor < f.Id()
    ensures FollowOne(cursor, EventOf(json, f)) == f.Id()
  {
    ParseDecimal(f.Id());
  }

  /** The place a client resumes from that started at a cursor and read these frames. */
  function PlaceAfter(cursor: nat, frames: seq<Frame>): (place: nat)
  {
    if frames == [] then cursor else frames[|frames| - 1].Id()
  }

  /** Ids come in order, so the cursor ends at the last one. */
  lemma {:induction false} EventsAreFollowed(json: Encoding, cursor: nat, frames: seq<Frame>, pos: nat)
    requires InOrder(frames, cursor, pos)
    ensures Follow(cursor, EventsOf(json, frames)) == PlaceAfter(cursor, frames)
  {
    if frames != [] {
      var front, f := frames[..|frames| - 1], frames[|frames| - 1];
      EventsAreFollowed(json, cursor, front, pos);
      FollowWire(json, PlaceAfter(cursor, front), f);
      HearEventsNext(json, {}, cursor, EventsOf(json, front), EventOf(json, f));
    }
  }

  lemma HearNext(held: set<nat>, frames: seq<Frame>, f: Frame)
    ensures HearAll(held, frames + [f]) == Hear(HearAll(held, frames), f)
  {
    assert (frames + [f])[..|frames|] == frames;
  }

  lemma {:induction false} HearAppends(held: set<nat>, a: seq<Frame>, b: seq<Frame>)
    ensures HearAll(held, a + b) == HearAll(HearAll(held, a), b)
  {
    if b == [] {
      assert a + [] == a;
    } else {
      var front, f := b[..|b| - 1], b[|b| - 1];
      assert b == front + [f];
      HearAppends(held, a, front);
      Regrouped(a, front, f);
      HearNext(held, a + front, f);
    }
  }

  // ---------------------------------------------------------------- the invariant

  /** What was written is what carries the frames, and what the parser made of the text so far is the frames read. */
  ghost predicate ParserOk(json: Encoding, l: Link)
  {
    && Sse.Written(l.wires) == l.got + l.coming && Carries(json, l.wires, l.read + l.flight)
    && Sse.Feed(Sse.FRESH, l.got) == (l.parser, EventsOf(json, l.read))
  }

  /** What was delivered is what was heard and what is in flight; the console shows its list and what it heard, and
      would resume right after the last frame it heard. */
  ghost predicate ConsoleAgrees(l: Link)
    requires l.system.console.Listening?
  {
    && l.system.console.delivered == l.heard + l.flight
    && l.held == HearAll(l.system.console.listing, l.heard)
    && l.cursor == PlaceAfter(l.system.console.start, l.heard)
  }

  /** Until a gap is announced, on which a console starts over. */
  ghost predicate WireOk(json: Encoding, l: Link)
  {
    l.system.console.Listening? && !l.system.console.gapped ==> ParserOk(json, l) && ConsoleAgrees(l)
  }

  ghost predicate LinkOk(rx: Regex, r: Reader, json: Encoding, l: Link)
  {
    SystemOk(rx, r, l.system) && WireOk(json, l)
  }

  // ---------------------------------------------------------------- the server writes

  lemma WrittenNext(wires: seq<Sse.Wire>, w: Sse.Wire)
    ensures Sse.Written(wires + [w]) == Sse.Written(wires) + Sse.Text(w)
  {
    assert (wires + [w])[..|wires|] == wires;
  }

  lemma Associated<T>(a: seq<T>, b: seq<T>, c: seq<T>)
    ensures (a + b) + c == a + (b + c)
  {
  }

  lemma {:induction false} WrittenAppends(a: seq<Sse.Wire>, b: seq<Sse.Wire>)
    ensures Sse.Written(a + b) == Sse.Written(a) + Sse.Written(b)
  {
    if b == [] {
      assert a + [] == a;
    } else {
      var front, w := b[..|b| - 1], b[|b| - 1];
      assert b == front + [w];
      WrittenAppends(a, front);
      Regrouped(a, front, w);
      WrittenNext(a + front, w);
      Associated(Sse.Written(a), Sse.Written(front), Sse.Text(w));
    }
  }

  /** Writing more changes nothing about what has arrived. */
  lemma WritingKeepsParser(json: Encoding, l: Link, wires: seq<Sse.Wire>, frames: seq<Frame>)
    requires ParserOk(json, l) && Carries(json, l.wires + wires, (l.read + l.flight) + frames)
    ensures ParserOk(json, Sent(l, wires, frames))
  {
    WrittenAppends(l.wires, wires);
    Associated(l.got, l.coming, Sse.Written(wires));
    Associated(l.read, l.flight, frames);
  }

  lemma TurnAppends(rx: Regex, r: Reader, w: System)
    requires w.console.Listening?
    ensures var out := Convergence.Next(rx, r, w, Poll).console;
            && out.Listening? && w.console.delivered <= out.delivered
            && out.listing == w.console.listing && out.start == w.console.start
            && (w.console.gapped ==> out.gapped)
            && (DueGap(w.Serving(), w.console.pos) ==> out.gapped)
  {
  }

  lemma DeliveryAgrees(l: Link, system: System, wires: seq<Sse.Wire>, frames: seq<Frame>)
    requires l.system.console.Listening? && system.console.Listening? && ConsoleAgrees(l)
    requires system.console.delivered == l.system.console.delivered + frames
    requires system.console.listing == l.system.console.listing && system.console.start == l.system.console.start
    ensures ConsoleAgrees(Sent(l.(system := system), wires, frames))
  {
    Associated(l.heard, l.flight, frames);
  }

  lemma TurnOk(rx: Regex, r: Reader, json: Encoding, l: Link)
    requires WireOk(json, l) && l.system.console.Listening?
    ensures WireOk(json, Turned(rx, r, json, l))
  {
    var after := Convergence.Next(rx, r, l.system, Poll);
    TurnAppends(rx, r, l.system);
    if !after.console.gapped {
      var frames := after.console.delivered[|l.system.console.delivered|..];
      assert after.console.delivered == l.system.console.delivered + frames;
      CarriesFrames(json, l.wires, l.read + l.flight, frames);
      WritingKeepsParser(json, l.(system := after), WiresOf(json, frames), frames);
      DeliveryAgrees(l, after, WiresOf(json, frames), frames);
    }
  }

  lemma CommentOk(json: Encoding, l: Link, text: string)
    requires WireOk(json, l) && Sse.Clean(text)
    ensures WireOk(json, Sent(l, [Sse.Comment(text)], []))
  {
    if l.system.console.Listening? && !l.system.console.gapped {
      CarriesComment(json, l.wires, l.read + l.flight, text);
      assert (l.read + l.flight) + [] == l.read + l.flight && l.flight + [] == l.flight;
      WritingKeepsParser(json, l, [Sse.Comment(text)], []);
    }
  }

  // ---------------------------------------------------------------- text arrives

  lemma PrefixesPart<T>(a: seq<T>, more: seq<T>, b: seq<T>)
    requires a + more <= a + b
    ensures more <= b
  {
    assert more == (a + more)[|a|..] && b == (a + b)[|a|..];
  }

  /** The events of text just arrived are those of the first frames in flight. */
  lemma ArrivedAreNext(json: Encoding, read: seq<Frame>, flight: seq<Frame>, events: seq<Sse.SseEvent>)
    requires EventsOf(json, read) + events <= EventsOf(json, read + flight)
    ensures |events| <= |flight| && events == EventsOf(json, flight[..|events|])
  {
    EventsAppend(json, read, flight);
    PrefixesPart(EventsOf(json, read), events, EventsOf(json, flight));
    var next, rest := flight[..|events|], flight[|events|..];
    assert flight == next + rest;
    EventsAppend(json, next, rest);
  }

  /** What arrives is parsed as if it had arrived at once. */
  lemma ParsedFurther(json: Encoding, l: Link, chunk: string, later: string)
    requires Encodes(json) && ParserOk(json, l) && l.coming == chunk + later
    ensures var (parser, events) := Sse.Feed(l.parser, chunk);
            && Sse.Feed(Sse.FRESH, l.got + chunk) == (parser, EventsOf(json, l.read) + events)
            && EventsOf(json, l.read) + events <= EventsOf(json, l.read + l.flight)
  {
    Sse.FeedAppends(Sse.FRESH, l.got, chunk);
    Associated(l.got, chunk, later);
    CutIsPrefix(json, l.wires, l.read + l.flight, l.got + chunk);
  }

  /** What was delivered lies in order between where the console started and where the server is. */
  ghost predicate Delivering(c: Console)
  {
    c.Listening? && c.start <= c.pos && InOrder(c.delivered, c.start, c.pos)
  }

  lemma SystemDelivers(rx: Regex, r: Reader, w: System)
    requires SystemOk(rx, r, w) && w.console.Listening?
    ensures Delivering(w.console)
  {
  }

  lemma MiddleInOrder(front: seq<Frame>, next: seq<Frame>, rest: seq<Frame>, start: nat, pos: nat)
    requires InOrder(front + (next + rest), start, pos)
    ensures InOrder(next, PlaceAfter(start, front), pos)
    ensures PlaceAfter(PlaceAfter(start, front), next) == PlaceAfter(start, front + next)
  {
    var all := front + (next + rest);
    assert forall i | 0 <= i < |front| :: all[i] == front[i];
    assert forall i | 0 <= i < |next| :: all[|front| + i] == next[i];
  }

  /** Hearing the next frames in flight keeps the console and the wire in step. */
  lemma HearingAgrees(json: Encoding, l: Link, next: seq<Frame>, rest: seq<Frame>)
    requires Encodes(json) && Delivering(l.system.console) && ConsoleAgrees(l) && l.flight == next + rest
    ensures var events := EventsOf(json, next);
            && AlertEvents(events) == |next|
            && l.system.console.delivered == (l.heard + next) + rest
            && HearEvents(json, l.held, events) == HearAll(l.system.console.listing, l.heard + next)
            && Follow(l.cursor, events) == PlaceAfter(l.system.console.start, l.heard + next)
  {
    var c := l.system.console;
    Associated(l.heard, next, rest);
    EventsAreHeard(json, l.held, next);
    HearAppends(c.listing, l.heard, next);
    MiddleInOrder(l.heard, next, rest, c.start, c.pos);
    EventsAreFollowed(json, l.cursor, next, c.pos);
  }

  /** Text that amounts to these frames moves them from the ones in flight to the ones read and heard. */
  function Taken(l: Link, chunk: string, later: string, parser: Sse.State, held: set<nat>, cursor: nat,
                 next: seq<Frame>, rest: seq<Frame>): (out: Link)
  {
    l.(got := l.got + chunk, coming := later, parser := parser, held := held, cursor := cursor, read := l.read + next,
       flight := rest, heard := l.heard + next)
  }

  lemma TakenKeepsParser(json: Encoding, l: Link, chunk: string, later: string, parser: Sse.State, held: set<nat>,
                         cursor: nat, next: seq<Frame>, rest: seq<Frame>)
    requires ParserOk(json, l) && l.coming == chunk + later && l.flight == next + rest
    requires Sse.Feed(Sse.FRESH, l.got + chunk) == (parser, EventsOf(json, l.read) + EventsOf(json, next))
    ensures ParserOk(json, Taken(l, chunk, later, parser, held, cursor, next, rest))
  {
    Associated(l.got, chunk, later);
    Associated(l.read, next, rest);
    EventsAppend(json, l.read, next);
  }

  lemma TakenOk(json: Encoding, l: Link, chunk: string, later: string, next: seq<Frame>, rest: seq<Frame>)
    requires Encodes(json) && Delivering(l.system.console) && ParserOk(json, l) && ConsoleAgrees(l)
    requires l.coming == chunk + later && l.flight == next + rest
    requires Sse.Feed(l.parser, chunk).1 == EventsOf(json, next)
    ensures var (parser, events) := Sse.Feed(l.parser, chunk);
            var out := Taken(l, chunk, later, parser, HearEvents(json, l.held, events), Follow(l.cursor, events), next,
                             rest);
            ParserOk(json, out) && ConsoleAgrees(out) && AlertEvents(events) == |next|
  {
    var (parser, events) := Sse.Feed(l.parser, chunk);
    ParsedFurther(json, l, chunk, later);
    TakenKeepsParser(json, l, chunk, later, parser, HearEvents(json, l.held, events), Follow(l.cursor, events), next,
                     rest);
    HearingAgrees(json, l, next, rest);
  }

  lemma ReceivedIsTaken(json: Encoding, l: Link, n: nat, k: nat)
    requires n <= |l.coming| && k <= |l.flight| && AlertEvents(Sse.Feed(l.parser, l.coming[..n]).1) == k
    ensures var (parser, events) := Sse.Feed(l.parser, l.coming[..n]);
            Received(json, l, n) ==
            Taken(l, l.coming[..n], l.coming[n..], parser, HearEvents(json, l.held, events), Follow(l.cursor, events),
                  l.flight[..k], l.flight[k..])
  {
  }

  lemma Halves<T>(s: seq<T>, k: nat)
    requires k <= |s|
    ensures s == s[..k] + s[k..] && |s[..k]| == k
  {
  }

  lemma ArriveOk(json: Encoding, l: Link, n: nat)
    requires Encodes(json) && WireOk(json, l) && n <= |l.coming| && Delivering(l.system.console)
    ensures WireOk(json, Received(json, l, n))
  {
    if !l.system.console.gapped {
      var chunk, later := l.coming[..n], l.coming[n..];
      var k := |Sse.Feed(l.parser, chunk).1|;
      Halves(l.coming, n);
      ParsedFurther(json, l, chunk, later);
      ArrivedAreNext(json, l.read, l.flight, Sse.Feed(l.parser, chunk).1);
      Halves(l.flight, k);
      TakenOk(json, l, chunk, later, l.flight[..k], l.flight[k..]);
      ReceivedIsTaken(json, l, n, k);
    }
  }

  // ---------------------------------------------------------------- connections and lists

  /** A connection without text or frames. */
  function Bare(l: Link, system: System): (out: Link)
  {
    l.(system := system, wires := [], got := "", coming := "", parser := Sse.FRESH, read := [], flight := [])
  }

  lemma BareOk(json: Encoding, l: Link, system: System)
    ensures ParserOk(json, Bare(l, system))
  {
  }

  lemma FetchListOk(json: Encoding, l: Link, system: System)
    requires system.console.Listening? && system.console.delivered == []
    ensures WireOk(json, Connected(TakeList(l, system), system))
  {
    BareOk(json, TakeList(l, system), system);
    CommentOk(json, Bare(TakeList(l, system), system), "connected");
  }

  /** The connection is lost with all that was under way, and the console resumes after what it heard. */
  lemma BreakOk(json: Encoding, l: Link, system: System)
    requires WireOk(json, l) && l.system.console.Listening?
    requires system.console == if |l.heard| <= |l.system.console.delivered|
                               then Resumed(l.system.console, |l.heard|) else l.system.console
    ensures WireOk(json, Connected(l, system))
  {
    if !l.system.console.gapped {
      assert (l.heard + l.flight)[..|l.heard|] == l.heard && l.heard + [] == l.heard;
      BareOk(json, l, system);
      CommentOk(json, Bare(l, system), "connected");
    }
  }

  lemma HeardIsCut(c: Console, heard: seq<Frame>, flight: seq<Frame>)
    requires c.Listening? && c.delivered == heard + flight
    ensures Resumed(c, |heard|).pos == PlaceAfter(c.start, heard) && c.delivered[|heard|..] == flight
  {
  }

  /** A new list starts over what is held and heard, and leaves the connection as it was. */
  lemma ListAgrees(l: Link, system: System)
    requires system.console.Listening? && system.console.delivered == l.flight
    ensures ConsoleAgrees(TakeList(l, system))
  {
    assert [] + l.flight == l.flight;
  }

  lemma ListKeepsParser(json: Encoding, l: Link, system: System)
    requires system.console.Listening? && ParserOk(json, l)
    ensures ParserOk(json, TakeList(l, system))
  {
  }

  lemma RefetchOk(json: Encoding, l: Link, system: System)
    requires WireOk(json, l) && l.system.console.Listening? && |l.heard| <= |l.system.console.delivered|
    requires system.console.Listening? && system.console.gapped == l.system.console.gapped
    requires system.console.delivered == l.system.console.delivered[|l.heard|..]
    ensures WireOk(json, TakeList(l, system))
  {
    if !l.system.console.gapped {
      HeardIsCut(l.system.console, l.heard, l.flight);
      ListAgrees(l, system);
      ListKeepsParser(json, l, system);
    }
  }

  lemma ConsoleStep(rx: Regex, r: Reader, w: System, k: nat)
    requires w.console.Listening?
    ensures Convergence.Next(rx, r, w, Resume(k)).console ==
            if k <= |w.console.delivered| then Resumed(w.console, k) else w.console
    ensures k <= |w.console.delivered| ==>
              Convergence.Next(rx, r, w, Relist(k)).console ==
              Relisted(w.console, k, InSight(rx, r, w.db.rows), |w.log|)
  {
  }

  lemma ServerStep(rx: Regex, r: Reader, w: System, step: Convergence.Step)
    requires step.Act? || step.PruneOlder?
    ensures Convergence.Next(rx, r, w, step).console == w.console
  {
  }

  lemma ServerMoveOk(rx: Regex, r: Reader, json: Encoding, l: Link, step: Convergence.Step)
    requires (step.Act? || step.PruneOlder?) && WireOk(json, l)
    ensures WireOk(json, l.(system := Convergence.Next(rx, r, l.system, step)))
  {
    ServerStep(rx, r, l.system, step);
  }

  lemma FetchMoveOk(rx: Regex, r: Reader, json: Encoding, l: Link)
    requires l.system.console.HasCursor?
    ensures var after := Convergence.Next(rx, r, l.system, ReadList);
            after.console.Listening? && WireOk(json, Connected(TakeList(l, after), after))
  {
    FetchListOk(json, l, Convergence.Next(rx, r, l.system, ReadList));
  }

  lemma BreakMoveOk(rx: Regex, r: Reader, json: Encoding, l: Link)
    requires WireOk(json, l) && l.system.console.Listening?
    ensures WireOk(json, Connected(l, Convergence.Next(rx, r, l.system, Resume(|l.heard|))))
  {
    ConsoleStep(rx, r, l.system, |l.heard|);
    BreakOk(json, l, Convergence.Next(rx, r, l.system, Resume(|l.heard|)));
  }

  lemma RefetchMoveOk(rx: Regex, r: Reader, json: Encoding, l: Link)
    requires WireOk(json, l) && l.system.console.Listening? && |l.heard| <= |l.system.console.delivered|
    ensures var after := Convergence.Next(rx, r, l.system, Relist(|l.heard|));
            after.console.Listening? && WireOk(json, TakeList(l, after))
  {
    ConsoleStep(rx, r, l.system, |l.heard|);
    RefetchOk(json, l, Convergence.Next(rx, r, l.system, Relist(|l.heard|)));
  }

  lemma MoveKeepsWire(rx: Regex, r: Reader, json: Encoding, l: Link, move: Move)
    requires Encodes(json) && WireOk(json, l) && (l.system.console.Listening? ==> Delivering(l.system.console))
    ensures WireOk(json, Moved(rx, r, json, l, move))
  {
    match move
    case Act(op, holes) => ServerMoveOk(rx, r, json, l, Convergence.Act(op, holes));
    case PruneOlder(cutoff) => ServerMoveOk(rx, r, json, l, Convergence.PruneOlder(cutoff));
    case FetchCursor =>
    case FetchList =>
      if l.system.console.HasCursor? {
        FetchMoveOk(rx, r, json, l);
      }
    case Turn =>
      if l.system.console.Listening? {
        TurnOk(rx, r, json, l);
      }
    case KeepAlive => CommentOk(json, l, "keepalive");
    case Arrive(n) =>
      if l.system.console.Listening? && n <= |l.coming| {
        ArriveOk(json, l, n);
      }
    case Break =>
      if l.system.console.Listening? {
        BreakMoveOk(rx, r, json, l);
      }
    case Refetch =>
      if l.system.console.Listening? && |l.heard| <= |l.system.console.delivered| {
        RefetchMoveOk(rx, r, json, l);
      }
  }

  /** What a move is to the system: one of its steps, or none. */
  function StepOf(l: Link, move: Move): (step: Option<Convergence.Step>)
  {
    match move
    case Act(op, holes) => Some(Convergence.Act(op, holes))
    case PruneOlder(cutoff) => Some(Convergence.PruneOlder(cutoff))
    case FetchCursor => Some(ReadCursor)
    case FetchList => Some(ReadList)
    case Turn => Some(Poll)
    case KeepAlive => None
    case Arrive(_) => None
    case Break => Some(Resume(|l.heard|))
    case Refetch => Some(Relist(|l.heard|))
  }

  /** The wire refines the system: whatever happens to the text, the system makes one of its own steps or none. */
  lemma MoveIsStep(rx: Regex, r: Reader, json: Encoding, l: Link, move: Move)
    ensures var step := StepOf(l, move);
            Moved(rx, r, json, l, move).system ==
            if step.Some? then Convergence.Next(rx, r, l.system, step.value) else l.system
  {
  }

  /** What arrives is the text that was coming, piece by piece, and it can all arrive. */
  lemma TextArrives(rx: Regex, r: Reader, json: Encoding, l: Link, n: nat)
    requires l.system.console.Listening? && n <= |l.coming|
    ensures var out := Moved(rx, r, json, l, Arrive(n));
            && out.got == l.got + l.coming[..n] && out.coming == l.coming[n..] && out.wires == l.wires
            && (n == |l.coming| ==> out.coming == "")
            && (out.parser, HearEvents(json, l.held, Sse.Feed(l.parser, l.coming[..n]).1)) ==
               (Sse.Feed(l.parser, l.coming[..n]).0, out.held)
  {
  }

  lemma GapText(data: string)
    ensures Sse.Written([Sse.Gap(data)]) == ("event: " + GAP + "\n") + (("data: " + data + "\n") + "\n")
  {
    assert [Sse.Gap(data)][..0] == [];
    Sse.FieldText("event", GAP);
    Sse.FieldText("data", data);
  }

  /** What a turn writes: a gap if one is due, and otherwise each new frame as its event, in order. */
  lemma TurnWrites(rx: Regex, r: Reader, json: Encoding, l: Link)
    requires l.system.console.Listening?
    ensures var before, out := l.system, Moved(rx, r, json, l, Turn);
            var pos, mark := before.console.pos, before.deletedThrough;
            && out.got == l.got
            && (0 < pos < mark ==>
                  out.coming ==
                  l.coming + (("event: " + GAP + "\n") + (("data: " + json.gap(pos, mark) + "\n") + "\n")))
            && (!(0 < pos < mark) ==>
                  && out.system.console.delivered == before.console.delivered + out.flight[|l.flight|..]
                  && out.coming == l.coming + Sse.Written(WiresOf(json, out.flight[|l.flight|..])))
  {
    TurnAppends(rx, r, l.system);
    if DueGap(l.system.Serving(), l.system.console.pos) {
      GapText(json.gap(l.system.console.pos, l.system.deletedThrough));
    }
  }

  lemma CommentText(text: string)
    ensures Sse.Written([Sse.Comment(text)]) == ": " + text + "\n\n"
  {
    assert [Sse.Comment(text)][..0] == [];
  }

  /** Keepalives are comments ... */
  lemma KeepAliveWrites(rx: Regex, r: Reader, json: Encoding, l: Link)
    ensures Moved(rx, r, json, l, KeepAlive).coming == l.coming + (": " + "keepalive" + "\n\n")
  {
    CommentText("keepalive");
  }

  /** ... and a broken connection loses what was coming; the next one begins with a greeting. */
  lemma BreakLoses(rx: Regex, r: Reader, json: Encoding, l: Link)
    requires l.system.console.Listening?
    ensures var out := Moved(rx, r, json, l, Break);
            && out.got == "" && out.coming == ": " + "connected" + "\n\n" && out.parser == Sse.FRESH
            && out.held == l.held && out.cursor == l.cursor
  {
    CommentText("connected");
  }

  lemma MoveOk(rx: Regex, r: Reader, json: Encoding, l: Link, move: Move)
    requires Encodes(json) && LinkOk(rx, r, json, l)
    ensures LinkOk(rx, r, json, Moved(rx, r, json, l, move))
  {
    if l.system.console.Listening? {
      SystemDelivers(rx, r, l.system);
    }
    MoveKeepsWire(rx, r, json, l, move);
    MoveIsStep(rx, r, json, l, move);
    if StepOf(l, move).Some? {
      NextOk(rx, r, l.system, StepOf(l, move).value);
    }
  }

  lemma RanNext(rx: Regex, r: Reader, json: Encoding, moves: seq<Move>, move: Move)
    ensures Ran(rx, r, json, moves + [move]) == Moved(rx, r, json, Ran(rx, r, json, moves), move)
  {
    assert (moves + [move])[..|moves|] == moves;
  }

  lemma {:induction false} RanOk(rx: Regex, r: Reader, json: Encoding, moves: seq<Move>)
    requires Encodes(json)
    ensures LinkOk(rx, r, json, Ran(rx, r, json, moves))
  {
    if moves != [] {
      RanOk(rx, r, json, moves[..|moves| - 1]);
      MoveOk(rx, r, json, Ran(rx, r, json, moves[..|moves| - 1]), moves[|moves| - 1]);
    } else {
      RunOk(rx, r, []);
    }
  }

  // ---------------------------------------------------------------- the theorem

  /** All text written has arrived, so everything delivered has been heard. */
  lemma AllIsHeard(json: Encoding, l: Link)
    requires Encodes(json) && l.system.console.Listening? && ParserOk(json, l) && ConsoleAgrees(l) && l.coming == ""
    ensures l.held == Held(l.system.console)
  {
    assert l.got + "" == l.got && l.heard + [] == l.heard;
    CutIsPrefix(json, l.wires, l.read + l.flight, l.got);
    assert |l.read + l.flight| == |l.read|;
  }

  /** End to end, over every run of writers, retention, polls, keepalives, broken connections and re-read lists, with
      the text arriving in pieces of any size: once all that was written has arrived, a settled console shows
      exactly the alerts in its reader's sight. */
  lemma ConsoleConvergesOverTheWire(rx: Regex, r: Reader, json: Encoding, moves: seq<Move>)
    requires Encodes(json)
    ensures var l := Ran(rx, r, json, moves);
            Settled(l.system) && l.coming == "" ==> l.held == InSight(rx, r, l.system.db.rows)
  {
    var l := Ran(rx, r, json, moves);
    RanOk(rx, r, json, moves);
    if Settled(l.system) && l.coming == "" {
      AllIsHeard(json, l);
      SettledShows(rx, r, l.system);
    }
  }

  /** From any moment of any run the text still coming can arrive, and leaves a settled console settled. */
  lemma TheRestArrives(rx: Regex, r: Reader, json: Encoding, moves: seq<Move>)
    requires Encodes(json)
    ensures var l := Ran(rx, r, json, moves);
            var out := Ran(rx, r, json, moves + [Arrive(|l.coming|)]);
            out.system == l.system
            && (Settled(l.system) ==> out.coming == "" && out.held == InSight(rx, r, l.system.db.rows))
  {
    var l := Ran(rx, r, json, moves);
    RanNext(rx, r, json, moves, Arrive(|l.coming|));
    MoveIsStep(rx, r, json, l, Arrive(|l.coming|));
    if l.system.console.Listening? {
      TextArrives(rx, r, json, l, |l.coming|);
    }
    ConsoleConvergesOverTheWire(rx, r, json, moves + [Arrive(|l.coming|)]);
  }

  /** At any moment of any run the last id the console read is the place to resume from: what is due from there on
      is exactly what was delivered and not heard. */
  lemma LastReadIsResume(rx: Regex, r: Reader, json: Encoding, moves: seq<Move>)
    requires Encodes(json)
    ensures var l := Ran(rx, r, json, moves);
            var c, log := l.system.console, l.system.log;
            c.Listening? && !c.gapped && c.whole ==>
              && UpTo(log, l.cursor) <= UpTo(log, c.pos) <= |log|
              && c.delivered == l.heard + l.flight
              && Due(rx, r, log, UpTo(log, l.cursor), UpTo(log, c.pos)) == l.flight
  {
    var l := Ran(rx, r, json, moves);
    var c, log := l.system.console, l.system.log;
    RanOk(rx, r, json, moves);
    if c.Listening? && !c.gapped && c.whole {
      HeardIsCut(c, l.heard, l.flight);
      DueSplits(rx, r, log, UpTo(log, c.start), UpTo(log, c.pos), |l.heard|);
    }
  }
}
