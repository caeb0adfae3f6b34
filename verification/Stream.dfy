/**
  The resumable stream over a table that retention deletes from. `log` is every event
  ever written; the table holds those not yet deleted; the watermark is the highest id
  deleted so far.
 */
module Stream {
  import opened Prelude
  import opened AlertModel
  import opened Authorization
  import opened View
  import opened QueryCompiler

  // ---------------------------------------------------------------- the server's side

  datatype Server = Server(log: seq<StreamEvent>, deleted: set<nat>, deletedThrough: nat)

  function LastId(log: seq<StreamEvent>): (id: nat) { if log == [] then 0 else log[|log| - 1].id }

  /** Ids are positive and assigned in commit order, though not without holes. */
  ghost predicate Increasing(log: seq<StreamEvent>)
  {
    && (forall i | 0 <= i < |log| :: 0 < log[i].id)
    && (forall i, j | 0 <= i < j < |log| :: log[i].id < log[j].id)
  }

  /** The rows of `stream_events` that survive. */
  function Kept(log: seq<StreamEvent>, deleted: set<nat>): (table: seq<StreamEvent>)
  {
    if log == [] then []
    else
      var e := log[|log| - 1];
      var rest := Kept(log[..|log| - 1], deleted);
      if e.id in deleted then rest else rest + [e]
  }

  /** `WHERE id > a AND id <= b ORDER BY id`. */
  function Between(log: seq<StreamEvent>, a: nat, b: nat): (r: seq<StreamEvent>)
  {
    if log == [] then []
    else
      var e := log[|log| - 1];
      var rest := Between(log[..|log| - 1], a, b);
      if a < e.id <= b then rest + [e] else rest
  }

  ghost predicate ServerOk(s: Server)
  {
    && Increasing(s.log)
    && (forall d | d in s.deleted :: d <= s.deletedThrough)
    && (s.deletedThrough == 0 || s.deletedThrough in s.deleted)
    && s.deletedThrough <= LastId(s.log)
  }

  /** A commit: the next id, past any hole the sequence left. */
  function Write(s: Server, e: StreamEvent, hole: nat): (r: Server)
  {
    s.(log := s.log + [e.(id := LastId(s.log) + 1 + hole)])
  }

  const PRUNE_BATCH: nat := 1000

  function OlderThan(table: seq<StreamEvent>, cutoff: int): (r: seq<StreamEvent>)
  {
    if table == [] then []
    else
      var e := table[|table| - 1];
      var rest := OlderThan(table[..|table| - 1], cutoff);
      if e.at < cutoff then rest + [e] else rest
  }

  /** The oldest ids first, at most a batch of them. */
  function Victims(table: seq<StreamEvent>, cutoff: int): (r: seq<StreamEvent>)
    ensures |r| == Min(1000, |OlderThan(table, cutoff)|)
  {
    var old_ := OlderThan(table, cutoff);
    if |old_| <= PRUNE_BATCH then old_ else old_[..PRUNE_BATCH]
  }

  function Ids(events: seq<StreamEvent>): (s: set<nat>)
  {
    set i | 0 <= i < |events| :: events[i].id
  }

  /** The watermark after these events are deleted; it never goes back. */
  function RaisedTo(mark: nat, victims: seq<StreamEvent>): (r: nat)
  {
    if victims == [] then mark else Max(mark, LastId(victims))
  }

  function PruneBatch(s: Server, cutoff: int): (r: Server)
  {
    var victims := Victims(Kept(s.log, s.deleted), cutoff);
    s.(deleted := s.deleted + Ids(victims), deletedThrough := RaisedTo(s.deletedThrough, victims))
  }

  // ---------------------------------------------------------------- what a reader is sent

  datatype Reader = Reader(principal: Principal, options: Option<ViewOptions>)

  predicate Sees(rx: Regex, r: Reader, labels: Labels)
  {
    Visible(rx, r.principal, Resolve(r.principal, r.options), labels)
  }

  /** An alert that left the reader's sight is announced by id alone. */
  datatype Frame = Ordinary(event: StreamEvent, viewMatch: ViewMatch) | Removed(id: nat, alert: nat, at: int)
  {
    function Id(): nat { if Ordinary? then event.id else id }
    function Alert(): nat { if Ordinary? then event.alert else alert }
  }

  function FrameOf(rx: Regex, r: Reader, e: StreamEvent): (f: Option<Frame>)
    ensures f.Some? ==> f.value.Id() == e.id && f.value.Alert() == e.alert
  {
    if Sees(rx, r, e.labels) then Some(Ordinary(e, Classify(rx, Resolve(r.principal, r.options), e.labels)))
    else if e.previous.Some? && Sees(rx, r, e.previous.value) then Some(Removed(e.id, e.alert, e.at))
    else None
  }

  function FramesOf(rx: Regex, r: Reader, events: seq<StreamEvent>): (frames: seq<Frame>)
  {
    if events == [] then []
    else
      var f := FrameOf(rx, r, events[|events| - 1]);
      var rest := FramesOf(rx, r, events[..|events| - 1]);
      if f.Some? then rest + [f.value] else rest
  }

  // ---------------------------------------------------------------- a connection

  /** One turn of the poll loop: the stretch of ids it moved over, and whether that was announced as a gap. */
  datatype Leg = Leg(start: nat, stop: nat, reader: Reader, gap: bool)

  datatype Conn = Conn(start: nat, pos: nat, delivered: seq<Frame>, legs: seq<Leg>)

  function Opened(cursor: nat): (c: Conn) { Conn(cursor, cursor, [], []) }

  function After(table: seq<StreamEvent>, a: nat): (r: seq<StreamEvent>)
  {
    if table == [] then []
    else
      var e := table[|table| - 1];
      var rest := After(table[..|table| - 1], a);
      if a < e.id then rest + [e] else rest
  }

  const POLL_LIMIT: nat := 100

  /** The window query: how far a bounded scan past `pos` reaches. */
  function ScannedThrough(table: seq<StreamEvent>, pos: nat): (id: nat)
  {
    var candidates := After(table, pos);
    if candidates == [] then pos
    else if |candidates| <= POLL_LIMIT then LastId(candidates)
    else LastId(candidates[..POLL_LIMIT])
  }

  /** A stream whose turn finds it behind the watermark is told of a gap, unless it is at cursor 0. */
  predicate DueGap(s: Server, pos: nat) { 0 < pos < s.deletedThrough }

  function Poll(rx: Regex, s: Server, c: Conn, r: Reader): (out: Conn)
  {
    var table := Kept(s.log, s.deleted);
    if DueGap(s, c.pos) then
      c.(pos := s.deletedThrough, legs := c.legs + [Leg(c.pos, s.deletedThrough, r, true)])
    else
      var scanned := ScannedThrough(table, c.pos);
      c.(pos := scanned,
         delivered := c.delivered + FramesOf(rx, r, Between(table, c.pos, scanned)),
         legs := c.legs + [Leg(c.pos, scanned, r, false)])
  }

  // ---------------------------------------------------------------- runs

  datatype Step = Commit(event: StreamEvent, hole: nat) | Prune(cutoff: int) | PollBy(reader: Reader)

  datatype World = World(server: Server, conn: Conn)

  function Next(rx: Regex, w: World, step: Step): (r: World)
  {
    match step
    case Commit(e, hole) => w.(server := Write(w.server, e, hole))
    case Prune(cutoff) => w.(server := PruneBatch(w.server, cutoff))
    case PollBy(reader) => w.(conn := Poll(rx, w.server, w.conn, reader))
  }

  function Run(rx: Regex, w: World, steps: seq<Step>): (r: World)
  {
    if steps == [] then w else Next(rx, Run(rx, w, steps[..|steps| - 1]), steps[|steps| - 1])
  }

  /** What a connection that moved over these legs owes its reader, read off the full log. */
  function Owed(rx: Regex, log: seq<StreamEvent>, legs: seq<Leg>): (frames: seq<Frame>)
  {
    if legs == [] then []
    else
      var leg := legs[|legs| - 1];
      var rest := Owed(rx, log, legs[..|legs| - 1]);
      if leg.gap then rest else rest + FramesOf(rx, leg.reader, Between(log, leg.start, leg.stop))
  }

  /** The legs cover (start, pos] end to end, without overlap, and none reaches past what was written. */
  ghost predicate Covers(log: seq<StreamEvent>, legs: seq<Leg>, start: nat, pos: nat)
  {
    if legs == [] then pos == start
    else
      var leg := legs[|legs| - 1];
      && leg.stop == pos && leg.start <= leg.stop
      && (leg.start == leg.stop || leg.stop <= LastId(log))
      && Covers(log, legs[..|legs| - 1], start, leg.start)
  }

  /** The legs account for every id between the opening cursor and the position. */
  ghost predicate LegsOk(log: seq<StreamEvent>, c: Conn)
  {
    c.start <= c.pos && Covers(log, c.legs, c.start, c.pos)
  }

  ghost predicate ConnOk(rx: Regex, log: seq<StreamEvent>, c: Conn)
  {
    LegsOk(log, c) && c.delivered == Owed(rx, log, c.legs)
  }

  // ---------------------------------------------------------------- lemmas about the log

  lemma AppendIncreases(log: seq<StreamEvent>, e: StreamEvent)
    requires Increasing(log) && LastId(log) < e.id
    ensures Increasing(log + [e]) && LastId(log + [e]) == e.id
  {
  }

  lemma {:induction false} BetweenLater(log: seq<StreamEvent>, e: StreamEvent, a: nat, b: nat)
    requires b < e.id
    ensures Between(log + [e], a, b) == Between(log, a, b)
  {
    assert (log + [e])[..|log|] == log;
  }

  lemma {:induction false} BetweenEmpty(log: seq<StreamEvent>, a: nat)
    ensures Between(log, a, a) == []
  {
    if log != [] {
      BetweenEmpty(log[..|log| - 1], a);
    }
  }

  /** Past the watermark nothing is missing. */
  lemma {:induction false} NothingMissing(log: seq<StreamEvent>, deleted: set<nat>, a: nat, b: nat)
    requires forall d | d in deleted :: d <= a
    ensures Between(Kept(log, deleted), a, b) == Between(log, a, b)
  {
    if log != [] {
      var front, e := log[..|log| - 1], log[|log| - 1];
      NothingMissing(front, deleted, a, b);
      if e.id !in deleted {
        assert (Kept(front, deleted) + [e])[..|Kept(front, deleted)|] == Kept(front, deleted);
      }
    }
  }

  lemma {:induction false} KeptIsFromLog(log: seq<StreamEvent>, deleted: set<nat>, e: StreamEvent)
    ensures e in Kept(log, deleted) <==> e in log && e.id !in deleted
  {
    if log != [] {
      KeptIsFromLog(log[..|log| - 1], deleted, e);
      assert log == log[..|log| - 1] + [log[|log| - 1]];
    }
  }

  lemma {:induction false} AfterIsFrom(table: seq<StreamEvent>, a: nat)
    ensures forall i | 0 <= i < |After(table, a)| :: After(table, a)[i] in table && a < After(table, a)[i].id
  {
    if table != [] {
      AfterIsFrom(table[..|table| - 1], a);
    }
  }

  lemma {:induction false} OlderIsFrom(table: seq<StreamEvent>, cutoff: int)
    ensures forall i | 0 <= i < |OlderThan(table, cutoff)| ::
              OlderThan(table, cutoff)[i] in table && OlderThan(table, cutoff)[i].at < cutoff
  {
    if table != [] {
      OlderIsFrom(table[..|table| - 1], cutoff);
    }
  }

  lemma InLogBounded(log: seq<StreamEvent>, e: StreamEvent)
    requires Increasing(log) && e in log
    ensures 0 < e.id <= LastId(log)
  {
  }

  lemma ScanBounds(s: Server, pos: nat)
    requires ServerOk(s)
    ensures var scanned := ScannedThrough(Kept(s.log, s.deleted), pos);
            pos <= scanned && (scanned == pos || scanned <= LastId(s.log))
  {
    var table := Kept(s.log, s.deleted);
    var candidates := After(table, pos);
    if candidates != [] {
      AfterIsFrom(table, pos);
      var last := candidates[(if |candidates| <= POLL_LIMIT then |candidates| else POLL_LIMIT) - 1];
      KeptIsFromLog(s.log, s.deleted, last);
      InLogBounded(s.log, last);
    }
  }

  // ---------------------------------------------------------------- every step keeps the books

  lemma WriteKeepsServer(s: Server, e: StreamEvent, hole: nat)
    requires ServerOk(s)
    ensures ServerOk(Write(s, e, hole)) && LastId(s.log) < LastId(Write(s, e, hole).log)
  {
    AppendIncreases(s.log, e.(id := LastId(s.log) + 1 + hole));
  }

  lemma {:induction false} SubsequenceIncreases(table: seq<StreamEvent>, cutoff: int)
    requires Increasing(table)
    ensures Increasing(OlderThan(table, cutoff)) && LastId(OlderThan(table, cutoff)) <= LastId(table)
  {
    if table != [] {
      var front := table[..|table| - 1];
      SubsequenceIncreases(front, cutoff);
      if front != [] {
        assert LastId(front) < LastId(table);
      }
      if table[|table| - 1].at < cutoff {
        AppendIncreases(OlderThan(front, cutoff), table[|table| - 1]);
      }
    }
  }

  lemma {:induction false} KeptIncreases(log: seq<StreamEvent>, deleted: set<nat>)
    requires Increasing(log)
    ensures Increasing(Kept(log, deleted)) && LastId(Kept(log, deleted)) <= LastId(log)
  {
    if log != [] {
      var front := log[..|log| - 1];
      KeptIncreases(front, deleted);
      if front != [] {
        assert LastId(front) < LastId(log);
      }
      if log[|log| - 1].id !in deleted {
        AppendIncreases(Kept(front, deleted), log[|log| - 1]);
      }
    }
  }

  lemma VictimsIncrease(s: Server, cutoff: int)
    requires ServerOk(s)
    ensures Increasing(Victims(Kept(s.log, s.deleted), cutoff))
  {
    KeptIncreases(s.log, s.deleted);
    SubsequenceIncreases(Kept(s.log, s.deleted), cutoff);
  }

  lemma VictimsWereThere(s: Server, cutoff: int, i: nat)
    requires i < |Victims(Kept(s.log, s.deleted), cutoff)|
    ensures var e := Victims(Kept(s.log, s.deleted), cutoff)[i];
            e in s.log && e.id !in s.deleted && e.at < cutoff
  {
    OlderIsFrom(Kept(s.log, s.deleted), cutoff);
    KeptIsFromLog(s.log, s.deleted, Victims(Kept(s.log, s.deleted), cutoff)[i]);
  }

  lemma VictimsBounded(s: Server, cutoff: int)
    requires ServerOk(s)
    ensures var victims := Victims(Kept(s.log, s.deleted), cutoff);
            && (forall d | d in Ids(victims) :: d <= LastId(victims))
            && (victims != [] ==> LastId(victims) in Ids(victims) && LastId(victims) <= LastId(s.log))
  {
    var victims := Victims(Kept(s.log, s.deleted), cutoff);
    VictimsIncrease(s, cutoff);
    if victims != [] {
      VictimsWereThere(s, cutoff, |victims| - 1);
      InLogBounded(s.log, victims[|victims| - 1]);
    }
  }

  lemma PruneKeepsServer(s: Server, cutoff: int)
    requires ServerOk(s)
    ensures ServerOk(PruneBatch(s, cutoff))
    ensures s.deletedThrough <= PruneBatch(s, cutoff).deletedThrough
  {
    VictimsBounded(s, cutoff);
  }

  lemma {:induction false} WriteKeepsBooks(rx: Regex, log: seq<StreamEvent>, e: StreamEvent, legs: seq<Leg>, start: nat,
                                           pos: nat)
    requires LastId(log) < e.id && Covers(log, legs, start, pos)
    ensures Covers(log + [e], legs, start, pos)
    ensures Owed(rx, log + [e], legs) == Owed(rx, log, legs)
  {
    if legs != [] {
      var leg := legs[|legs| - 1];
      WriteKeepsBooks(rx, log, e, legs[..|legs| - 1], start, leg.start);
      if leg.start == leg.stop {
        BetweenEmpty(log, leg.start);
        BetweenEmpty(log + [e], leg.start);
      } else {
        BetweenLater(log, e, leg.start, leg.stop);
      }
    }
  }

  lemma LegExtendsBooks(rx: Regex, log: seq<StreamEvent>, c: Conn, leg: Leg, out: Conn)
    requires LegsOk(log, c)
    requires leg.start == c.pos && leg.start <= leg.stop && (leg.start == leg.stop || leg.stop <= LastId(log))
    requires out.start == c.start && out.pos == leg.stop && out.legs == c.legs + [leg]
    ensures LegsOk(log, out)
    ensures Owed(rx, log, out.legs) ==
            if leg.gap then Owed(rx, log, c.legs)
            else Owed(rx, log, c.legs) + FramesOf(rx, leg.reader, Between(log, leg.start, leg.stop))
  {
    assert out.legs[..|c.legs|] == c.legs;
  }

  /** What a turn past the beginning adds to what was delivered, and to what was owed. */
  function TurnFrames(rx: Regex, s: Server, pos: nat, r: Reader): (frames: seq<Frame>)
  {
    if pos < s.deletedThrough then []
    else FramesOf(rx, r, Between(s.log, pos, ScannedThrough(Kept(s.log, s.deleted), pos)))
  }

  /** Past the beginning, a turn delivers exactly what it comes to owe. */
  lemma PollAddsWhatItOwes(rx: Regex, s: Server, c: Conn, r: Reader)
    requires ServerOk(s) && LegsOk(s.log, c) && 0 < c.pos
    ensures LegsOk(s.log, Poll(rx, s, c, r)) && c.pos <= Poll(rx, s, c, r).pos
    ensures Poll(rx, s, c, r).delivered == c.delivered + TurnFrames(rx, s, c.pos, r)
    ensures Owed(rx, s.log, Poll(rx, s, c, r).legs) == Owed(rx, s.log, c.legs) + TurnFrames(rx, s, c.pos, r)
  {
    var out := Poll(rx, s, c, r);
    if c.pos < s.deletedThrough {
      LegExtendsBooks(rx, s.log, c, Leg(c.pos, s.deletedThrough, r, true), out);
    } else {
      var scanned := ScannedThrough(Kept(s.log, s.deleted), c.pos);
      ScanBounds(s, c.pos);
      NothingMissing(s.log, s.deleted, c.pos, scanned);
      LegExtendsBooks(rx, s.log, c, Leg(c.pos, scanned, r, false), out);
    }
  }

  lemma PollKeepsBooks(rx: Regex, s: Server, c: Conn, r: Reader)
    requires ServerOk(s) && ConnOk(rx, s.log, c) && 0 < c.pos
    ensures ConnOk(rx, s.log, Poll(rx, s, c, r))
    ensures Poll(rx, s, c, r).start == c.start && c.pos <= Poll(rx, s, c, r).pos
  {
    PollAddsWhatItOwes(rx, s, c, r);
  }

  ghost predicate WorldOk(rx: Regex, w: World)
  {
    ServerOk(w.server) && ConnOk(rx, w.server.log, w.conn) && 0 < w.conn.pos
  }

  lemma CommitKeepsBooks(rx: Regex, w: World, e: StreamEvent, hole: nat)
    requires WorldOk(rx, w)
    ensures WorldOk(rx, Next(rx, w, Commit(e, hole)))
  {
    WriteKeepsServer(w.server, e, hole);
    WriteKeepsBooks(rx, w.server.log, e.(id := LastId(w.server.log) + 1 + hole), w.conn.legs, w.conn.start, w.conn.pos);
  }

  lemma NextKeepsBooks(rx: Regex, w: World, step: Step)
    requires WorldOk(rx, w)
    ensures WorldOk(rx, Next(rx, w, step)) && Next(rx, w, step).conn.start == w.conn.start
  {
    match step
    case Commit(e, hole) => CommitKeepsBooks(rx, w, e, hole);
    case Prune(cutoff) => PruneKeepsServer(w.server, cutoff);
    case PollBy(reader) => PollKeepsBooks(rx, w.server, w.conn, reader);
  }

  /** Over every interleaving of commits, prunes and polls, a stream opened at a positive cursor has
      sent exactly what the full log owes for the stretches it moved over, in order, and every stretch
      it did not serve was announced as a gap. */
  lemma {:induction false} NoSilentLoss(rx: Regex, s: Server, cursor: nat, steps: seq<Step>)
    requires ServerOk(s) && 0 < cursor
    ensures WorldOk(rx, Run(rx, World(s, Opened(cursor)), steps))
    ensures Run(rx, World(s, Opened(cursor)), steps).conn.start == cursor
  {
    if steps != [] {
      NoSilentLoss(rx, s, cursor, steps[..|steps| - 1]);
      NextKeepsBooks(rx, Run(rx, World(s, Opened(cursor)), steps[..|steps| - 1]), steps[|steps| - 1]);
    }
  }

  // ---------------------------------------------------------------- what the books mean

  lemma {:induction false} BetweenExact(log: seq<StreamEvent>, a: nat, b: nat, e: StreamEvent)
    ensures e in Between(log, a, b) <==> e in log && a < e.id <= b
  {
    if log != [] {
      BetweenExact(log[..|log| - 1], a, b, e);
      assert log == log[..|log| - 1] + [log[|log| - 1]];
    }
  }

  lemma {:induction false} BetweenIncreases(log: seq<StreamEvent>, a: nat, b: nat)
    requires Increasing(log)
    ensures Increasing(Between(log, a, b)) && LastId(Between(log, a, b)) <= LastId(log)
  {
    if log != [] {
      var front := log[..|log| - 1];
      BetweenIncreases(front, a, b);
      assert front != [] ==> LastId(front) < LastId(log);
      if a < log[|log| - 1].id <= b {
        AppendIncreases(Between(front, a, b), log[|log| - 1]);
      }
    }
  }

  /** Frames name their events in order, and come from nowhere else. */
  ghost predicate InOrder(frames: seq<Frame>, a: nat, b: nat)
  {
    && (forall i | 0 <= i < |frames| :: a < frames[i].Id() <= b)
    && (forall i, j | 0 <= i < j < |frames| :: frames[i].Id() < frames[j].Id())
  }

  lemma InOrderAppends(x: seq<Frame>, y: seq<Frame>, a: nat, b: nat, c: nat)
    requires InOrder(x, a, b) && InOrder(y, b, c) && a <= b <= c
    ensures InOrder(x + y, a, c)
  {
  }

  lemma {:induction false} FramesInOrder(rx: Regex, r: Reader, events: seq<StreamEvent>, a: nat)
    requires Increasing(events) && forall i | 0 <= i < |events| :: a < events[i].id
    ensures InOrder(FramesOf(rx, r, events), a, Max(a, LastId(events)))
  {
    if events != [] {
      var front, e := events[..|events| - 1], events[|events| - 1];
      FramesInOrder(rx, r, front, a);
      assert front != [] ==> LastId(front) < e.id;
      var f := FrameOf(rx, r, e);
      if f.Some? {
        assert InOrder([f.value], Max(a, LastId(front)), e.id);
        InOrderAppends(FramesOf(rx, r, front), [f.value], a, Max(a, LastId(front)), e.id);
      }
    }
  }

  lemma FramesOfLast(rx: Regex, r: Reader, events: seq<StreamEvent>)
    requires events != []
    ensures var f, front := FrameOf(rx, r, events[|events| - 1]), FramesOf(rx, r, events[..|events| - 1]);
            FramesOf(rx, r, events) == if f.Some? then front + [f.value] else front
  {
  }

  lemma {:induction false} FramesComplete(rx: Regex, r: Reader, events: seq<StreamEvent>, i: nat)
    requires i < |events| && FrameOf(rx, r, events[i]).Some?
    ensures FrameOf(rx, r, events[i]).value in FramesOf(rx, r, events)
  {
    FramesOfLast(rx, r, events);
    if i < |events| - 1 {
      FramesComplete(rx, r, events[..|events| - 1], i);
    }
  }

  lemma LegFrames(rx: Regex, log: seq<StreamEvent>, leg: Leg)
    requires Increasing(log) && leg.start <= leg.stop
    ensures InOrder(FramesOf(rx, leg.reader, Between(log, leg.start, leg.stop)), leg.start, leg.stop)
  {
    var events := Between(log, leg.start, leg.stop);
    BetweenIncreases(log, leg.start, leg.stop);
    forall i | 0 <= i < |events| ensures leg.start < events[i].id <= leg.stop {
      BetweenExact(log, leg.start, leg.stop, events[i]);
    }
    FramesInOrder(rx, leg.reader, events, leg.start);
  }

  /** Nothing is sent twice or out of order. */
  lemma {:induction false} SentInOrder(rx: Regex, log: seq<StreamEvent>, legs: seq<Leg>, start: nat, pos: nat)
    requires Increasing(log) && Covers(log, legs, start, pos)
    ensures start <= pos && InOrder(Owed(rx, log, legs), start, pos)
  {
    if legs != [] {
      var leg := legs[|legs| - 1];
      SentInOrder(rx, log, legs[..|legs| - 1], start, leg.start);
      LegFrames(rx, log, leg);
      if !leg.gap {
        InOrderAppends(Owed(rx, log, legs[..|legs| - 1]), FramesOf(rx, leg.reader, Between(log, leg.start, leg.stop)),
                       start, leg.start, leg.stop);
      }
    }
  }

  /** What these frames hold of an event for a reader: the event itself if its alert is visible to them now, a removal
      if it only was visible before. */
  ghost predicate Sent(rx: Regex, r: Reader, frames: seq<Frame>, e: StreamEvent)
  {
    var p, view := r.principal, Resolve(r.principal, r.options);
    var now := Visible(rx, p, view, e.labels);
    var before := e.previous.Some? && Visible(rx, p, view, e.previous.value);
    && (now ==> Ordinary(e, Classify(rx, view, e.labels)) in frames)
    && (!now && before ==> Removed(e.id, e.alert, e.at) in frames)
  }

  /** The frame tells of the event what the reader may know: all of it if its alert is visible to them, that it is gone
      if it only was visible before, and otherwise there is no such frame. */
  predicate Tells(rx: Regex, r: Reader, e: StreamEvent, f: Frame)
  {
    var p, view := r.principal, Resolve(r.principal, r.options);
    if Visible(rx, p, view, e.labels) then f == Ordinary(e, Classify(rx, view, e.labels))
    else e.previous.Some? && Visible(rx, p, view, e.previous.value) && f == Removed(e.id, e.alert, e.at)
  }

  lemma FrameTells(rx: Regex, r: Reader, e: StreamEvent, f: Frame)
    ensures FrameOf(rx, r, e) == Some(f) <==> Tells(rx, r, e, f)
  {
  }

  /** Every event of a window is sent to whoever may see it, as what it is to them. */
  lemma FramesTellAll(rx: Regex, r: Reader, events: seq<StreamEvent>, i: nat)
    requires i < |events|
    ensures Sent(rx, r, FramesOf(rx, r, events), events[i])
  {
    if FrameOf(rx, r, events[i]).Some? {
      FramesComplete(rx, r, events, i);
    }
  }

  /** Nothing else is: each frame tells of some event of the window. */
  ghost predicate ToldOf(rx: Regex, r: Reader, events: seq<StreamEvent>, f: Frame)
  {
    exists i | 0 <= i < |events| :: Tells(rx, r, events[i], f)
  }

  lemma {:induction false} FramesTellNoMore(rx: Regex, r: Reader, events: seq<StreamEvent>, k: nat)
    requires k < |FramesOf(rx, r, events)|
    ensures ToldOf(rx, r, events, FramesOf(rx, r, events)[k])
  {
    var front, e := events[..|events| - 1], events[|events| - 1];
    FramesOfLast(rx, r, events);
    if k < |FramesOf(rx, r, front)| {
      FramesTellNoMore(rx, r, front, k);
      var i :| 0 <= i < |front| && Tells(rx, r, front[i], FramesOf(rx, r, front)[k]);
      assert events[i] == front[i];
    } else {
      FrameTells(rx, r, e, FramesOf(rx, r, events)[k]);
    }
  }

  /** This leg carries the event: either it was announced as a gap, or whoever polled it was sent the event,
      provided they could see it. */
  ghost predicate Carries(rx: Regex, leg: Leg, delivered: seq<Frame>, e: StreamEvent)
  {
    leg.start < e.id <= leg.stop && (leg.gap || Sent(rx, leg.reader, delivered, e))
  }

  ghost predicate AccountedFor(rx: Regex, legs: seq<Leg>, delivered: seq<Frame>, e: StreamEvent)
  {
    exists i | 0 <= i < |legs| :: Carries(rx, legs[i], delivered, e)
  }

  lemma AccountGrows(rx: Regex, legs: seq<Leg>, delivered: seq<Frame>, leg: Leg, more: seq<Frame>, e: StreamEvent)
    requires AccountedFor(rx, legs, delivered, e) || Carries(rx, leg, delivered + more, e)
    ensures AccountedFor(rx, legs + [leg], delivered + more, e)
  {
    if Carries(rx, leg, delivered + more, e) {
      assert (legs + [leg])[|legs|] == leg;
    } else {
      var i :| 0 <= i < |legs| && Carries(rx, legs[i], delivered, e);
      assert (legs + [leg])[i] == legs[i];
    }
  }

  /** A served leg sends every event on it that its reader could see. */
  lemma LegCarries(rx: Regex, log: seq<StreamEvent>, leg: Leg, e: StreamEvent)
    requires e in log && leg.start < e.id <= leg.stop
    ensures Carries(rx, leg, if leg.gap then [] else FramesOf(rx, leg.reader, Between(log, leg.start, leg.stop)), e)
  {
    var events := Between(log, leg.start, leg.stop);
    BetweenExact(log, leg.start, leg.stop, e);
    if !leg.gap {
      var k :| 0 <= k < |events| && events[k] == e;
      FramesTellAll(rx, leg.reader, events, k);
    }
  }

  lemma CarriesMore(rx: Regex, leg: Leg, before: seq<Frame>, more: seq<Frame>, e: StreamEvent)
    requires Carries(rx, leg, more, e)
    ensures Carries(rx, leg, before + more, e)
  {
  }

  lemma {:induction false} EveryEventAccounted(rx: Regex, log: seq<StreamEvent>, legs: seq<Leg>, start: nat, pos: nat,
                                               e: StreamEvent)
    requires Covers(log, legs, start, pos) && e in log && start < e.id <= pos
    ensures AccountedFor(rx, legs, Owed(rx, log, legs), e)
  {
    var front, leg := legs[..|legs| - 1], legs[|legs| - 1];
    assert legs == front + [leg];
    var more := if leg.gap then [] else FramesOf(rx, leg.reader, Between(log, leg.start, leg.stop));
    assert Owed(rx, log, legs) == Owed(rx, log, front) + more;
    if e.id <= leg.start {
      EveryEventAccounted(rx, log, front, start, leg.start, e);
    } else {
      LegCarries(rx, log, leg, e);
      CarriesMore(rx, leg, Owed(rx, log, front), more, e);
    }
    AccountGrows(rx, front, Owed(rx, log, front), leg, more, e);
  }

  /** The frame tells truly of an event in the log, on a stretch served to the reader it tells it to. */
  ghost predicate TrueOn(rx: Regex, log: seq<StreamEvent>, leg: Leg, f: Frame)
  {
    !leg.gap && ToldOf(rx, leg.reader, Between(log, leg.start, leg.stop), f)
  }

  ghost predicate Truthful(rx: Regex, log: seq<StreamEvent>, legs: seq<Leg>, f: Frame)
  {
    exists i | 0 <= i < |legs| :: TrueOn(rx, log, legs[i], f)
  }

  lemma {:induction false} OwedIsTrue(rx: Regex, log: seq<StreamEvent>, legs: seq<Leg>, k: nat)
    requires k < |Owed(rx, log, legs)|
    ensures Truthful(rx, log, legs, Owed(rx, log, legs)[k])
  {
    var front, leg := legs[..|legs| - 1], legs[|legs| - 1];
    var before := Owed(rx, log, front);
    if k < |before| {
      OwedIsTrue(rx, log, front, k);
      var i :| 0 <= i < |front| && TrueOn(rx, log, front[i], before[k]);
      assert legs[i] == front[i];
    } else {
      FramesTellNoMore(rx, leg.reader, Between(log, leg.start, leg.stop), k - |before|);
      assert TrueOn(rx, log, leg, Owed(rx, log, legs)[k]);
    }
  }

  /** The same over whole runs: at any moment, everything ever written past the opening cursor and up to
      the position was sent once and in order to whoever could see it, as what it is to them, or lies under an
      announced gap; and nothing else was sent. */
  lemma DeliveredOnceOrAnnounced(rx: Regex, s: Server, cursor: nat, steps: seq<Step>)
    requires ServerOk(s) && 0 < cursor
    ensures var w := Run(rx, World(s, Opened(cursor)), steps);
            && InOrder(w.conn.delivered, cursor, w.conn.pos)
            && (forall e | e in w.server.log && cursor < e.id <= w.conn.pos ::
                  AccountedFor(rx, w.conn.legs, w.conn.delivered, e))
            && (forall k | 0 <= k < |w.conn.delivered| ::
                  Truthful(rx, w.server.log, w.conn.legs, w.conn.delivered[k]))
  {
    var w := Run(rx, World(s, Opened(cursor)), steps);
    NoSilentLoss(rx, s, cursor, steps);
    SentInOrder(rx, w.server.log, w.conn.legs, cursor, w.conn.pos);
    forall e | e in w.server.log && cursor < e.id <= w.conn.pos
      ensures AccountedFor(rx, w.conn.legs, w.conn.delivered, e) {
      EveryEventAccounted(rx, w.server.log, w.conn.legs, cursor, w.conn.pos, e);
    }
    forall k | 0 <= k < |w.conn.delivered| ensures Truthful(rx, w.server.log, w.conn.legs, w.conn.delivered[k]) {
      OwedIsTrue(rx, w.server.log, w.conn.legs, k);
    }
  }

  // ---------------------------------------------------------------- where loss could be silent

  /** The reader would have been sent this event, had it not been deleted. */
  ghost predicate Misses(rx: Regex, log: seq<StreamEvent>, deleted: set<nat>, a: nat, b: nat, r: Reader)
  {
    exists i | 0 <= i < |log| :: log[i].id in deleted && a < log[i].id <= b && FrameOf(rx, r, log[i]).Some?
  }

  lemma MissesSplits(rx: Regex, front: seq<StreamEvent>, e: StreamEvent, deleted: set<nat>, a: nat, b: nat, r: Reader)
    ensures Misses(rx, front + [e], deleted, a, b, r) <==>
            Misses(rx, front, deleted, a, b, r) || (e.id in deleted && a < e.id <= b && FrameOf(rx, r, e).Some?)
  {
    var log := front + [e];
    assert log[|front|] == e;
    assert forall i | 0 <= i < |front| :: log[i] == front[i];
  }

  /** The frames one more event adds to a window. */
  lemma FramesGrow(rx: Regex, r: Reader, log: seq<StreamEvent>, e: StreamEvent, a: nat, b: nat)
    ensures var f := FrameOf(rx, r, e);
            FramesOf(rx, r, Between(log + [e], a, b)) ==
            FramesOf(rx, r, Between(log, a, b)) + (if a < e.id <= b && f.Some? then [f.value] else [])
  {
    assert (log + [e])[..|log|] == log;
    assert (Between(log, a, b) + [e])[..|Between(log, a, b)|] == Between(log, a, b);
  }

  lemma KeptGrows(log: seq<StreamEvent>, e: StreamEvent, deleted: set<nat>)
    ensures Kept(log + [e], deleted) == if e.id in deleted then Kept(log, deleted) else Kept(log, deleted) + [e]
  {
    assert (log + [e])[..|log|] == log;
  }

  /** The frames a window of a table yields. */
  function FramesIn(rx: Regex, r: Reader, table: seq<StreamEvent>, a: nat, b: nat): (frames: seq<Frame>)
  {
    FramesOf(rx, r, Between(table, a, b))
  }

  /** One more event puts the two readings of a window apart exactly when it is one the reader misses. */
  lemma ServedGrows(rx: Regex, front: seq<StreamEvent>, e: StreamEvent, deleted: set<nat>, a: nat, b: nat, r: Reader)
    ensures var missed := e.id in deleted && a < e.id <= b && FrameOf(rx, r, e).Some?;
            var more := if a < e.id <= b && FrameOf(rx, r, e).Some? then [FrameOf(rx, r, e).value] else [];
            && FramesIn(rx, r, front + [e], a, b) == FramesIn(rx, r, front, a, b) + more
            && FramesIn(rx, r, Kept(front + [e], deleted), a, b) ==
               if missed then FramesIn(rx, r, Kept(front, deleted), a, b)
               else FramesIn(rx, r, Kept(front, deleted), a, b) + more
  {
    KeptGrows(front, e, deleted);
    FramesGrow(rx, r, front, e, a, b);
    FramesGrow(rx, r, Kept(front, deleted), e, a, b);
  }

  /** Fewer frames than owed exactly if some were missed, and otherwise the very frames owed. */
  ghost predicate ShortExactly(served: seq<Frame>, owed: seq<Frame>, missed: bool)
  {
    && |served| <= |owed|
    && (|served| == |owed| <==> !missed)
    && (|served| == |owed| ==> served == owed)
  }

  lemma ShortGrows(served: seq<Frame>, owed: seq<Frame>, missed: bool, more: seq<Frame>, missing: bool)
    requires ShortExactly(served, owed, missed) && (missing ==> more != [])
    ensures ShortExactly(if missing then served else served + more, owed + more, missed || missing)
  {
  }

  lemma NothingServed(rx: Regex, deleted: set<nat>, a: nat, b: nat, r: Reader)
    ensures ShortExactly(FramesIn(rx, r, Kept([], deleted), a, b), FramesIn(rx, r, [], a, b),
                         Misses(rx, [], deleted, a, b, r))
  {
  }

  lemma ServedAfter(rx: Regex, front: seq<StreamEvent>, e: StreamEvent, log: seq<StreamEvent>, deleted: set<nat>,
                    a: nat, b: nat, r: Reader)
    requires log == front + [e]
    requires ShortExactly(FramesIn(rx, r, Kept(front, deleted), a, b), FramesIn(rx, r, front, a, b),
                          Misses(rx, front, deleted, a, b, r))
    ensures ShortExactly(FramesIn(rx, r, Kept(log, deleted), a, b), FramesIn(rx, r, log, a, b),
                         Misses(rx, log, deleted, a, b, r))
  {
    var missing := e.id in deleted && a < e.id <= b && FrameOf(rx, r, e).Some?;
    var more := if a < e.id <= b && FrameOf(rx, r, e).Some? then [FrameOf(rx, r, e).value] else [];
    MissesSplits(rx, front, e, deleted, a, b, r);
    ServedGrows(rx, front, e, deleted, a, b, r);
    ShortGrows(FramesIn(rx, r, Kept(front, deleted), a, b), FramesIn(rx, r, front, a, b),
               Misses(rx, front, deleted, a, b, r), more, missing);
  }

  /** What surviving rows yield is what the full log owes exactly when nothing the reader could see was
      deleted from the window. */
  lemma {:induction false} ServedIsOwedExactly(rx: Regex, log: seq<StreamEvent>, deleted: set<nat>, a: nat, b: nat,
                                               r: Reader)
    ensures ShortExactly(FramesIn(rx, r, Kept(log, deleted), a, b), FramesIn(rx, r, log, a, b),
                         Misses(rx, log, deleted, a, b, r))
  {
    if log == [] {
      NothingServed(rx, deleted, a, b, r);
    } else {
      var front, e := log[..|log| - 1], log[|log| - 1];
      assert log == front + [e];
      ServedIsOwedExactly(rx, front, deleted, a, b, r);
      ServedAfter(rx, front, e, log, deleted, a, b, r);
    }
  }

  // ---------------------------------------------------------------- streams opened at the beginning

  /** The first turn that gets a stream away from cursor 0: the server it found, and who polled. */
  function FirstMove(rx: Regex, s: Server, steps: seq<Step>): (m: Option<(Server, Reader)>)
  {
    if steps == [] then None
    else
      var front, step := steps[..|steps| - 1], steps[|steps| - 1];
      var earlier := FirstMove(rx, s, front);
      var server := Run(rx, World(s, Opened(0)), front).server;
      if earlier.Some? then earlier
      else if step.PollBy? && 0 < ScannedThrough(Kept(server.log, server.deleted), 0) then Some((server, step.reader))
      else None
  }

  function FirstWindow(s: Server): (id: nat) { ScannedThrough(Kept(s.log, s.deleted), 0) }

  /** `delivered` and `owed` differ, if at all, only in how they begin. */
  ghost predicate ApartAt(delivered: seq<Frame>, owed: seq<Frame>, served: seq<Frame>, due: seq<Frame>)
  {
    && served <= delivered && due <= owed
    && delivered[|served|..] == owed[|due|..]
  }

  lemma ApartGrows(delivered: seq<Frame>, owed: seq<Frame>, served: seq<Frame>, due: seq<Frame>, more: seq<Frame>)
    requires ApartAt(delivered, owed, served, due)
    ensures ApartAt(delivered + more, owed + more, served, due)
  {
    assert (delivered + more)[|served|..] == delivered[|served|..] + more;
    assert (owed + more)[|due|..] == owed[|due|..] + more;
  }

  lemma ApartMeans(delivered: seq<Frame>, owed: seq<Frame>, served: seq<Frame>, due: seq<Frame>)
    requires ApartAt(delivered, owed, served, due)
    ensures |served| == |due| && served == due ==> delivered == owed
    ensures delivered == owed ==> |served| == |due|
  {
    assert delivered == served + delivered[|served|..];
    assert owed == due + owed[|due|..];
  }

  /** Before the first move a stream opened at 0 has nothing and owes nothing. */
  ghost predicate Waiting(rx: Regex, w: World)
  {
    && w.conn.start == 0 && w.conn.pos == 0 && w.conn.delivered == []
    && LegsOk(w.server.log, w.conn) && Owed(rx, w.server.log, w.conn.legs) == []
    && forall i | 0 <= i < |w.conn.legs| :: !w.conn.legs[i].gap
  }

  /** After it, what was delivered and what is owed agree but for the first window, which was not announced. */
  ghost predicate Moving(rx: Regex, w: World, first: Server, r: Reader)
  {
    && 0 < w.conn.pos && LegsOk(w.server.log, w.conn)
    && ApartAt(w.conn.delivered, Owed(rx, w.server.log, w.conn.legs),
               FramesIn(rx, r, Kept(first.log, first.deleted), 0, FirstWindow(first)),
                   FramesIn(rx, r, first.log, 0, FirstWindow(first)))
    && Leg(0, FirstWindow(first), r, false) in w.conn.legs
  }

  lemma StillAtZero(rx: Regex, w: World, r: Reader)
    requires ServerOk(w.server) && Waiting(rx, w) && FirstWindow(w.server) == 0
    ensures Waiting(rx, Next(rx, w, PollBy(r)))
  {
    var out := Next(rx, w, PollBy(r)).conn;
    BetweenEmpty(w.server.log, 0);
    BetweenEmpty(Kept(w.server.log, w.server.deleted), 0);
    assert out == w.conn.(legs := w.conn.legs + [Leg(0, 0, r, false)]);
    LegExtendsBooks(rx, w.server.log, w.conn, Leg(0, 0, r, false), out);
  }

  lemma MovesFromZero(rx: Regex, w: World, r: Reader)
    requires ServerOk(w.server) && Waiting(rx, w) && 0 < FirstWindow(w.server)
    ensures Moving(rx, Next(rx, w, PollBy(r)), w.server, r)
  {
    var out, leg := Next(rx, w, PollBy(r)).conn, Leg(0, FirstWindow(w.server), r, false);
    ScanBounds(w.server, 0);
    LegExtendsBooks(rx, w.server.log, w.conn, leg, out);
    assert out.legs[|w.conn.legs|] == leg;
  }

  lemma CommitWaits(rx: Regex, w: World, e: StreamEvent, hole: nat)
    requires ServerOk(w.server) && LegsOk(w.server.log, w.conn)
    ensures LegsOk(Write(w.server, e, hole).log, w.conn)
    ensures Owed(rx, Write(w.server, e, hole).log, w.conn.legs) == Owed(rx, w.server.log, w.conn.legs)
  {
    WriteKeepsServer(w.server, e, hole);
    WriteKeepsBooks(rx, w.server.log, e.(id := LastId(w.server.log) + 1 + hole), w.conn.legs, w.conn.start, w.conn.pos);
  }

  lemma WaitingNext(rx: Regex, w: World, step: Step)
    requires ServerOk(w.server) && Waiting(rx, w)
    ensures var moves := step.PollBy? && 0 < FirstWindow(w.server);
            if moves then Moving(rx, Next(rx, w, step), w.server, step.reader) else Waiting(rx, Next(rx, w, step))
  {
    if step.PollBy? {
      if 0 < FirstWindow(w.server) {
        MovesFromZero(rx, w, step.reader);
      } else {
        StillAtZero(rx, w, step.reader);
      }
    } else if step.Commit? {
      CommitWaits(rx, w, step.event, step.hole);
    }
  }

  lemma MovingNext(rx: Regex, w: World, step: Step, first: Server, r: Reader)
    requires ServerOk(w.server) && Moving(rx, w, first, r)
    ensures Moving(rx, Next(rx, w, step), first, r)
  {
    var served := FramesIn(rx, r, Kept(first.log, first.deleted), 0, FirstWindow(first));
    var due := FramesIn(rx, r, first.log, 0, FirstWindow(first));
    if step.PollBy? {
      PollAddsWhatItOwes(rx, w.server, w.conn, step.reader);
      ApartGrows(w.conn.delivered, Owed(rx, w.server.log, w.conn.legs), served, due,
                 TurnFrames(rx, w.server, w.conn.pos, step.reader));
    } else if step.Commit? {
      CommitWaits(rx, w, step.event, step.hole);
    }
  }

  lemma {:induction false} RunKeepsServer(rx: Regex, w: World, steps: seq<Step>)
    requires ServerOk(w.server)
    ensures ServerOk(Run(rx, w, steps).server) && w.server.log <= Run(rx, w, steps).server.log
    ensures w.server.deletedThrough <= Run(rx, w, steps).server.deletedThrough
    ensures w.server.deleted <= Run(rx, w, steps).server.deleted
  {
    if steps != [] {
      var before, step := Run(rx, w, steps[..|steps| - 1]), steps[|steps| - 1];
      RunKeepsServer(rx, w, steps[..|steps| - 1]);
      if step.Commit? {
        WriteKeepsServer(before.server, step.event, step.hole);
      } else if step.Prune? {
        PruneKeepsServer(before.server, step.cutoff);
      }
    }
  }

  lemma {:induction false} ZeroRun(rx: Regex, s: Server, steps: seq<Step>)
    requires ServerOk(s)
    ensures var w, move := Run(rx, World(s, Opened(0)), steps), FirstMove(rx, s, steps);
            if move.None? then Waiting(rx, w) else Moving(rx, w, move.value.0, move.value.1) && ServerOk(move.value.0)
  {
    if steps != [] {
      var front, step := steps[..|steps| - 1], steps[|steps| - 1];
      var w, move := Run(rx, World(s, Opened(0)), front), FirstMove(rx, s, front);
      ZeroRun(rx, s, front);
      RunKeepsServer(rx, World(s, Opened(0)), front);
      if move.None? {
        WaitingNext(rx, w, step);
      } else {
        MovingNext(rx, w, step, move.value.0, move.value.1);
      }
    }
  }

  lemma NothingDeletedNothingMissed(rx: Regex, s: Server, a: nat, b: nat, r: Reader)
    requires ServerOk(s)
    ensures s.deletedThrough <= a ==> !Misses(rx, s.log, s.deleted, a, b, r)
  {
  }

  /** The gap check exempts cursor 0. Over every run of a stream opened there: until some poll moves it, it
      has sent nothing and owes nothing. From then on it is complete exactly when, at that first moving poll,
      retention had taken nothing the poller could see from the window polled; whatever was taken is never
      announced. A watermark still at zero then is enough. */
  lemma CursorZeroLosesExactly(rx: Regex, s: Server, steps: seq<Step>)
    requires ServerOk(s)
    ensures var w, move := Run(rx, World(s, Opened(0)), steps), FirstMove(rx, s, steps);
            && (move.None? ==> w.conn.pos == 0 && w.conn.delivered == [] && Owed(rx, w.server.log, w.conn.legs) == [])
            && (move.Some? ==>
                  var (first, r) := move.value;
                  && Leg(0, FirstWindow(first), r, false) in w.conn.legs
                  && (w.conn.delivered == Owed(rx, w.server.log, w.conn.legs) <==>
                      !Misses(rx, first.log, first.deleted, 0, FirstWindow(first), r))
                  && (first.deletedThrough == 0 ==> w.conn.delivered == Owed(rx, w.server.log, w.conn.legs)))
  {
    var w, move := Run(rx, World(s, Opened(0)), steps), FirstMove(rx, s, steps);
    ZeroRun(rx, s, steps);
    if move.Some? {
      var (first, r) := move.value;
      ServedIsOwedExactly(rx, first.log, first.deleted, 0, FirstWindow(first), r);
      ApartMeans(w.conn.delivered, Owed(rx, w.server.log, w.conn.legs),
                 FramesIn(rx, r, Kept(first.log, first.deleted), 0, FirstWindow(first)),
                     FramesIn(rx, r, first.log, 0, FirstWindow(first)));
      NothingDeletedNothingMissed(rx, first, 0, FirstWindow(first), r);
    }
  }

  // ---------------------------------------------------------------- a loss, step by step

  const NEWS := StreamEvent(0, EventCreated, 0, 0, "warning", "Down", "", "prom", "", map["alertname" := "Down"], None)
  const LOST := NEWS.(id := 1)
  const FOUND := NEWS.(id := 2)
  const EMPTY := Server([], {}, 0)
  const REMAINING := Server([LOST, FOUND], {1}, 1)
  const ONE_COMMIT: seq<Step> := [] + [Commit(NEWS, 0)]
  const THEN_PRUNED: seq<Step> := ONE_COMMIT + [Prune(1)]
  const LOSING: seq<Step> := THEN_PRUNED + [Commit(NEWS, 0)]

  lemma RunNext(rx: Regex, w: World, steps: seq<Step>, step: Step)
    ensures Run(rx, w, steps + [step]) == Next(rx, Run(rx, w, steps), step)
  {
    assert (steps + [step])[..|steps|] == steps;
  }

  lemma KeptOne(e: StreamEvent, deleted: set<nat>)
    ensures Kept([e], deleted) == if e.id in deleted then [] else [e]
  {
    KeptGrows([], e, deleted);
    assert [] + [e] == [e];
  }

  lemma OlderGrows(table: seq<StreamEvent>, e: StreamEvent, cutoff: int)
    ensures OlderThan(table + [e], cutoff) == if e.at < cutoff then OlderThan(table, cutoff) + [e]
            else OlderThan(table, cutoff)
  {
    assert (table + [e])[..|table|] == table;
  }

  lemma AfterGrows(table: seq<StreamEvent>, e: StreamEvent, a: nat)
    ensures After(table + [e], a) == if a < e.id then After(table, a) + [e] else After(table, a)
  {
    assert (table + [e])[..|table|] == table;
  }

  /** Retention takes the only event there is, if it is old enough. */
  lemma PruneTakesOnly(e: StreamEvent, cutoff: int)
    requires e.id == 1 && e.at < cutoff
    ensures PruneBatch(Server([e], {}, 0), cutoff) == Server([e], {1}, 1)
  {
    KeptOne(e, {});
    OlderGrows([], e, cutoff);
    assert [] + [e] == [e];
    assert Ids([e]) == {1};
  }

  /** A table of one event, read from 0. */
  lemma OnlyOne(e: StreamEvent)
    requires e.id > 0
    ensures ScannedThrough([e], 0) == e.id && Between([e], 0, e.id) == [e]
  {
    AfterGrows([], e, 0);
    assert [] + [e] == [e] && [e][..0] == [];
  }

  /** A poll from 0 then reaches the second event, and serves it alone. */
  lemma PollServesSecond(first: StreamEvent, second: StreamEvent)
    requires first.id == 1 && second.id == 2
    ensures var table := Kept([first, second], {1});
            table == [second] && ScannedThrough(table, 0) == 2 && Between(table, 0, 2) == [second]
  {
    KeptOne(first, {1});
    KeptGrows([first], second, {1});
    assert [first] + [second] == [first, second] && [] + [second] == [second];
    OnlyOne(second);
  }

  lemma CommitNext(rx: Regex, w: World, e: StreamEvent, grown: seq<StreamEvent>)
    requires grown == w.server.log + [e.(id := LastId(w.server.log) + 1)]
    ensures Next(rx, w, Commit(e, 0)) == w.(server := w.server.(log := grown))
  {
  }

  lemma RunTo(rx: Regex, w: World, steps: seq<Step>, from: World, step: Step, to: World)
    requires Run(rx, w, steps) == from && Next(rx, from, step) == to
    ensures Run(rx, w, steps + [step]) == to
  {
    RunNext(rx, w, steps, step);
  }

  lemma OneCommitted(rx: Regex)
    ensures Run(rx, World(EMPTY, Opened(0)), ONE_COMMIT) == World(Server([LOST], {}, 0), Opened(0))
  {
    CommitNext(rx, World(EMPTY, Opened(0)), NEWS, [LOST]);
    RunTo(rx, World(EMPTY, Opened(0)), [], World(EMPTY, Opened(0)), Commit(NEWS, 0),
          World(Server([LOST], {}, 0), Opened(0)));
  }

  lemma OnePruned(rx: Regex)
    ensures Run(rx, World(EMPTY, Opened(0)), THEN_PRUNED) == World(Server([LOST], {1}, 1), Opened(0))
  {
    OneCommitted(rx);
    PruneTakesOnly(LOST, 1);
    RunTo(rx, World(EMPTY, Opened(0)), ONE_COMMIT, World(Server([LOST], {}, 0), Opened(0)), Prune(1),
          World(Server([LOST], {1}, 1), Opened(0)));
  }

  lemma LosingServer(rx: Regex)
    ensures Run(rx, World(EMPTY, Opened(0)), LOSING) == World(REMAINING, Opened(0))
  {
    OnePruned(rx);
    CommitNext(rx, World(Server([LOST], {1}, 1), Opened(0)), NEWS, [LOST, FOUND]);
    RunTo(rx, World(EMPTY, Opened(0)), THEN_PRUNED, World(Server([LOST], {1}, 1), Opened(0)), Commit(NEWS, 0),
          World(REMAINING, Opened(0)));
  }

  lemma {:induction false} NoMoveWithoutPolls(rx: Regex, s: Server, steps: seq<Step>)
    requires forall i | 0 <= i < |steps| :: !steps[i].PollBy?
    ensures FirstMove(rx, s, steps).None?
  {
    if steps != [] {
      NoMoveWithoutPolls(rx, s, steps[..|steps| - 1]);
    }
  }

  lemma FirstMoveNext(rx: Regex, s: Server, steps: seq<Step>, step: Step)
    ensures var server := Run(rx, World(s, Opened(0)), steps).server;
            FirstMove(rx, s, steps + [step]) ==
            if FirstMove(rx, s, steps).Some? then FirstMove(rx, s, steps)
            else if step.PollBy? && 0 < FirstWindow(server) then Some((server, step.reader))
            else None
  {
    assert (steps + [step])[..|steps|] == steps;
  }

  /** A poll that finds something is the first move of a stream nobody polled before. */
  lemma PollMovesFirst(rx: Regex, s: Server, steps: seq<Step>, first: Server, r: Reader)
    requires (forall i | 0 <= i < |steps| :: !steps[i].PollBy?) && Run(rx, World(s, Opened(0)), steps).server == first
    requires 0 < FirstWindow(first)
    ensures FirstMove(rx, s, steps + [PollBy(r)]) == Some((first, r))
  {
    NoMoveWithoutPolls(rx, s, steps);
    FirstMoveNext(rx, s, steps, PollBy(r));
  }

  lemma OnlyOneLeft()
    ensures FirstWindow(REMAINING) == 2
  {
    PollServesSecond(LOST, FOUND);
  }

  lemma LosingPolled(rx: Regex, r: Reader)
    ensures Run(rx, World(EMPTY, Opened(0)), LOSING + [PollBy(r)]).conn.legs == [Leg(0, 2, r, false)]
  {
    LosingServer(rx);
    OnlyOneLeft();
    RunNext(rx, World(EMPTY, Opened(0)), LOSING, PollBy(r));
  }

  lemma LostIsMissed(rx: Regex, r: Reader)
    requires FrameOf(rx, r, LOST).Some?
    ensures Misses(rx, REMAINING.log, REMAINING.deleted, 0, 2, r)
  {
    assert REMAINING.log[0] == LOST;
  }

  /** Commit, prune, commit, poll: a stream opened at 0 misses an event its reader could see, and no gap is
      ever announced. */
  lemma CursorZeroCanLose(rx: Regex, r: Reader)
    requires FrameOf(rx, r, LOST).Some?
    ensures var w := Run(rx, World(EMPTY, Opened(0)), LOSING + [PollBy(r)]);
            && w.conn.delivered != Owed(rx, w.server.log, w.conn.legs)
            && w.conn.legs == [Leg(0, 2, r, false)]
  {
    LosingServer(rx);
    OnlyOneLeft();
    PollMovesFirst(rx, EMPTY, LOSING, REMAINING, r);
    LostIsMissed(rx, r);
    LosingPolled(rx, r);
    CursorZeroLosesExactly(rx, EMPTY, LOSING + [PollBy(r)]);
  }

  // ---------------------------------------------------------------- a poll in two statements

  /** What any steps, other readers' polls among them, make of a server. */
  function Later(rx: Regex, s: Server, steps: seq<Step>): (r: Server) { Run(rx, World(s, Opened(0)), steps).server }

  /** A turn whose first statement saw `before`, watermark included, and whose second saw `after`. */
  function SplitPoll(rx: Regex, before: Server, after: Server, c: Conn, r: Reader): (out: Conn)
  {
    var scanned := ScannedThrough(Kept(before.log, before.deleted), c.pos);
    if DueGap(before, c.pos) then
      c.(pos := before.deletedThrough, legs := c.legs + [Leg(c.pos, before.deletedThrough, r, true)])
    else
      c.(pos := scanned,
         delivered := c.delivered + FramesIn(rx, r, Kept(after.log, after.deleted), c.pos, scanned),
         legs := c.legs + [Leg(c.pos, scanned, r, false)])
  }

  /** Two turns in a row left out something, and neither said so. */
  ghost predicate SilentLoss(rx: Regex, log: seq<StreamEvent>, c: Conn, first: Conn, second: Conn, r: Reader)
  {
    && first.delivered != c.delivered + FramesIn(rx, r, log, c.pos, first.pos)
    && forall i | |c.legs| <= i < |second.legs| :: !second.legs[i].gap
  }

  /** Past the watermark, what is deleted was deleted since. */
  lemma TakenIsMissed(rx: Regex, before: Server, after: Server, a: nat, b: nat, r: Reader)
    requires ServerOk(before) && before.deletedThrough <= a
    ensures Misses(rx, after.log, after.deleted, a, b, r) <==>
            Misses(rx, after.log, after.deleted - before.deleted, a, b, r)
  {
    if Misses(rx, after.log, after.deleted, a, b, r) {
      var i :| 0 <= i < |after.log| && after.log[i].id in after.deleted && a < after.log[i].id <= b
          && FrameOf(rx, r, after.log[i]).Some?;
      assert after.log[i].id in after.deleted - before.deleted;
    }
    if Misses(rx, after.log, after.deleted - before.deleted, a, b, r) {
      var i :| 0 <= i < |after.log| && after.log[i].id in after.deleted - before.deleted && a < after.log[i].id <= b
               && FrameOf(rx, r, after.log[i]).Some?;
      assert after.log[i].id in after.deleted;
    }
  }

  lemma SameTail(x: seq<Frame>, a: seq<Frame>, b: seq<Frame>)
    ensures x + a == x + b <==> a == b
  {
    if x + a == x + b {
      assert (x + a)[|x|..] == a && (x + b)[|x|..] == b;
    }
  }

  lemma SplitServes(rx: Regex, before: Server, after: Server, c: Conn, r: Reader)
    requires !DueGap(before, c.pos)
    ensures var scanned := ScannedThrough(Kept(before.log, before.deleted), c.pos);
            SplitPoll(rx, before, after, c, r).delivered ==
              c.delivered + FramesIn(rx, r, after.log, c.pos, scanned) <==>
            !Misses(rx, after.log, after.deleted, c.pos, scanned, r)
  {
    var scanned := ScannedThrough(Kept(before.log, before.deleted), c.pos);
    ServedIsOwedExactly(rx, after.log, after.deleted, c.pos, scanned, r);
    SameTail(c.delivered, FramesIn(rx, r, Kept(after.log, after.deleted), c.pos, scanned),
             FramesIn(rx, r, after.log, c.pos, scanned));
  }

  lemma SplitLegs(rx: Regex, before: Server, after: Server, later: Server, c: Conn, r: Reader, next: Reader)
    requires !DueGap(before, c.pos)
    ensures var first := SplitPoll(rx, before, after, c, r);
            var second := Poll(rx, later, first, next);
            (forall i | |c.legs| <= i < |second.legs| :: !second.legs[i].gap) <==> !DueGap(later, first.pos)
  {
    var first := SplitPoll(rx, before, after, c, r);
    var second := Poll(rx, later, first, next);
    assert |first.legs| == |c.legs| + 1 && |second.legs| == |c.legs| + 2;
    assert second.legs[|c.legs|] == first.legs[|c.legs|];
    assert second.legs[|c.legs| + 1].gap == DueGap(later, first.pos);
  }

  /** The code reads the window and the rows in two statements. Let anything commit and be pruned between
      them, and again before the next turn. A turn that announces nothing, from cursor 0 or any other, serves its
      window whole exactly when by its second statement retention had taken nothing the reader could see from
      it; past the watermark, that is, nothing between the two. When something was taken, the next turn speaks up
      exactly when the watermark has passed the window's end; otherwise the loss is silent. */
  lemma SplitPollLosesExactly(rx: Regex, before: Server, between: seq<Step>, until: seq<Step>, c: Conn, r: Reader,
                              next: Reader)
    requires ServerOk(before) && !DueGap(before, c.pos)
    ensures var after := Later(rx, before, between);
            var later := Later(rx, after, until);
            var scanned := ScannedThrough(Kept(before.log, before.deleted), c.pos);
            var first := SplitPoll(rx, before, after, c, r);
            var second := Poll(rx, later, first, next);
            && (first.delivered == c.delivered + FramesIn(rx, r, after.log, c.pos, scanned) <==>
                !Misses(rx, after.log, after.deleted, c.pos, scanned, r))
            && (SilentLoss(rx, after.log, c, first, second, r) <==>
                Misses(rx, after.log, after.deleted, c.pos, scanned, r) && later.deletedThrough <= scanned)
            && (before.deletedThrough <= c.pos ==>
                  (Misses(rx, after.log, after.deleted, c.pos, scanned, r) <==>
                   Misses(rx, after.log, after.deleted - before.deleted, c.pos, scanned, r)))
  {
    var after := Later(rx, before, between);
    var scanned := ScannedThrough(Kept(before.log, before.deleted), c.pos);
    SplitServes(rx, before, after, c, r);
    ScanBounds(before, c.pos);
    SplitLegs(rx, before, after, Later(rx, after, until), c, r, next);
    if before.deletedThrough <= c.pos {
      TakenIsMissed(rx, before, after, c.pos, scanned, r);
    }
  }

  const YOUNG := NEWS.(at := 5)
  const THIRD := YOUNG.(id := 3)
  const TWO_COMMITS: seq<Step> := ONE_COMMIT + [Commit(NEWS, 0)]
  const THREE: seq<Step> := TWO_COMMITS + [Commit(YOUNG, 0)]
  const WRITTEN := Server([LOST, FOUND, THIRD], {}, 0)

  lemma TwoWritten(rx: Regex)
    ensures Run(rx, World(EMPTY, Opened(0)), TWO_COMMITS) == World(Server([LOST, FOUND], {}, 0), Opened(0))
  {
    OneCommitted(rx);
    CommitNext(rx, World(Server([LOST], {}, 0), Opened(0)), NEWS, [LOST, FOUND]);
    RunTo(rx, World(EMPTY, Opened(0)), ONE_COMMIT, World(Server([LOST], {}, 0), Opened(0)), Commit(NEWS, 0),
          World(Server([LOST, FOUND], {}, 0), Opened(0)));
  }

  lemma ThirdOfThree(a: StreamEvent, b: StreamEvent, e: StreamEvent)
    ensures LastId([a, b]) == b.id && [a, b] + [e] == [a, b, e]
  {
  }

  lemma ThirdWritten(rx: Regex)
    ensures Next(rx, World(Server([LOST, FOUND], {}, 0), Opened(0)), Commit(YOUNG, 0)) == World(WRITTEN, Opened(0))
  {
    ThirdOfThree(LOST, FOUND, THIRD);
    CommitNext(rx, World(Server([LOST, FOUND], {}, 0), Opened(0)), YOUNG, [LOST, FOUND, THIRD]);
  }

  lemma ThreeWritten(rx: Regex)
    ensures Later(rx, EMPTY, THREE) == WRITTEN
  {
    TwoWritten(rx);
    ThirdWritten(rx);
    RunTo(rx, World(EMPTY, Opened(0)), TWO_COMMITS, World(Server([LOST, FOUND], {}, 0), Opened(0)), Commit(YOUNG, 0),
          World(WRITTEN, Opened(0)));
  }

  lemma InThree(a: StreamEvent, b: StreamEvent, c: StreamEvent)
    ensures [] + [a] == [a] && [a] + [b] == [a, b] && [a, b] + [c] == [a, b, c]
  {
  }

  lemma ThreeKept(a: StreamEvent, b: StreamEvent, c: StreamEvent)
    ensures Kept([a, b, c], {}) == [a, b, c]
  {
    InThree(a, b, c);
    KeptGrows([], a, {});
    KeptGrows([a], b, {});
    KeptGrows([a, b], c, {});
  }

  /** From the first the window reaches the third. */
  lemma ThreeScanned(a: StreamEvent, b: StreamEvent, c: StreamEvent)
    requires a.id < b.id < c.id
    ensures ScannedThrough(Kept([a, b, c], {}), a.id) == c.id
  {
    ThreeKept(a, b, c);
    InThree(a, b, c);
    AfterGrows([], a, a.id);
    AfterGrows([a], b, a.id);
    AfterGrows([a, b], c, a.id);
  }

  lemma IdsOfTwo(a: StreamEvent, b: StreamEvent)
    ensures Ids([a, b]) == {a.id, b.id}
  {
    assert [a, b][0] == a && [a, b][1] == b;
  }

  lemma ThreeOlder(a: StreamEvent, b: StreamEvent, c: StreamEvent, cutoff: int)
    requires a.at < cutoff && b.at < cutoff && cutoff <= c.at
    ensures OlderThan([a, b, c], cutoff) == [a, b]
  {
    InThree(a, b, c);
    OlderGrows([], a, cutoff);
    OlderGrows([a], b, cutoff);
    OlderGrows([a, b], c, cutoff);
  }

  /** A prune then takes the first two and leaves the third. */
  lemma ThreePruned(a: StreamEvent, b: StreamEvent, c: StreamEvent, cutoff: int)
    requires a.id == 1 && b.id == 2 && a.at < cutoff && b.at < cutoff && cutoff <= c.at
    ensures PruneBatch(Server([a, b, c], {}, 0), cutoff) == Server([a, b, c], {1, 2}, 2)
  {
    ThreeKept(a, b, c);
    ThreeOlder(a, b, c, cutoff);
    IdsOfTwo(a, b);
  }

  const PRUNED := Server(WRITTEN.log, {1, 2}, 2)

  lemma ThenTwoPruned(rx: Regex)
    ensures ServerOk(WRITTEN) && Later(rx, WRITTEN, [Prune(1)]) == PRUNED && Later(rx, PRUNED, []) == PRUNED
  {
    var w := World(WRITTEN, Opened(0));
    ThreePruned(LOST, FOUND, THIRD, 1);
    RunTo(rx, w, [], w, Prune(1), World(PRUNED, Opened(0)));
    assert [] + [Prune(1)] == [Prune(1)];
  }

  lemma FoundIsMissed(rx: Regex, r: Reader)
    requires FrameOf(rx, r, FOUND).Some?
    ensures Misses(rx, PRUNED.log, PRUNED.deleted, 1, 3, r)
  {
    assert PRUNED.log[1] == FOUND;
  }

  /** Three events, a stream at the first of them, and a prune between the two statements of its poll: the
      second event is neither sent nor announced, now or at the next turn. */
  lemma SplitPollCanLose(rx: Regex, r: Reader)
    requires FrameOf(rx, r, FOUND).Some?
    ensures var before := Later(rx, EMPTY, THREE);
            var after := Later(rx, before, [Prune(1)]);
            var first := SplitPoll(rx, before, after, Opened(1), r);
            SilentLoss(rx, after.log, Opened(1), first, Poll(rx, after, first, r), r)
  {
    ThreeWritten(rx);
    ThreeScanned(LOST, FOUND, THIRD);
    ThenTwoPruned(rx);
    FoundIsMissed(rx, r);
    SplitPollLosesExactly(rx, WRITTEN, [Prune(1)], [], Opened(1), r, r);
  }

  // ---------------------------------------------------------------- the window

  lemma {:induction false} AfterIncreases(table: seq<StreamEvent>, a: nat)
    requires Increasing(table)
    ensures Increasing(After(table, a)) && LastId(After(table, a)) <= LastId(table)
  {
    if table != [] {
      var front := table[..|table| - 1];
      AfterIncreases(front, a);
      assert front != [] ==> LastId(front) < LastId(table);
      if a < table[|table| - 1].id {
        AppendIncreases(After(front, a), table[|table| - 1]);
      }
    }
  }

  lemma {:induction false} BetweenOfAfter(table: seq<StreamEvent>, a: nat, b: nat)
    ensures Between(After(table, a), a, b) == Between(table, a, b)
  {
    if table != [] {
      var front, e := table[..|table| - 1], table[|table| - 1];
      BetweenOfAfter(front, a, b);
      if a < e.id {
        assert (After(front, a) + [e])[..|After(front, a)|] == After(front, a);
      }
    }
  }

  lemma {:induction false} BetweenAll(events: seq<StreamEvent>, a: nat, b: nat)
    requires forall i | 0 <= i < |events| :: a < events[i].id <= b
    ensures Between(events, a, b) == events
  {
    if events != [] {
      BetweenAll(events[..|events| - 1], a, b);
    }
  }

  lemma {:induction false} BetweenTakesPrefix(events: seq<StreamEvent>, a: nat, n: nat)
    requires Increasing(events) && 0 < n <= |events| && forall i | 0 <= i < |events| :: a < events[i].id
    ensures Between(events, a, events[n - 1].id) == events[..n]
  {
    var front := events[..|events| - 1];
    if n < |events| {
      BetweenTakesPrefix(front, a, n);
      assert front[..n] == events[..n];
    } else {
      BetweenAll(events, a, events[n - 1].id);
      assert events[..n] == events;
    }
  }

  lemma WindowTakesPrefix(table: seq<StreamEvent>, pos: nat, n: nat)
    requires Increasing(table) && 0 < n <= |After(table, pos)|
    ensures Between(table, pos, After(table, pos)[n - 1].id) == After(table, pos)[..n]
  {
    var candidates := After(table, pos);
    AfterIncreases(table, pos);
    AfterIsFrom(table, pos);
    BetweenTakesPrefix(candidates, pos, n);
    BetweenOfAfter(table, pos, candidates[n - 1].id);
  }

  /** The second statement of a poll returns exactly the rows the first one measured, so a poll never
      carries more than the limit, and it stands still only when nothing survives beyond its position. */
  lemma WindowIsExact(s: Server, pos: nat)
    requires ServerOk(s)
    ensures var table := Kept(s.log, s.deleted);
            var scanned := ScannedThrough(table, pos);
            && Between(table, pos, scanned) == After(table, pos)[..Min(100, |After(table, pos)|)]
            && (scanned == pos <==> After(table, pos) == [])
  {
    var table := Kept(s.log, s.deleted);
    KeptIncreases(s.log, s.deleted);
    AfterIsFrom(table, pos);
    if After(table, pos) == [] {
      BetweenEmpty(table, pos);
    } else {
      WindowTakesPrefix(table, pos, Min(POLL_LIMIT, |After(table, pos)|));
    }
  }
}
