/**
  A console that lists alerts once and then only listens. The cursor is read before the
  list, so the stream replays events the list already knew; writers, retention, polls and
  reconnections interleave freely.
 */
module Convergence {
  import opened Prelude
  import opened AlertModel
  import opened Authorization
  import opened View
  import opened QueryCompiler
  import opened Stream
  import Ingest
  import Lifecycle

  // ---------------------------------------------------------------- what a console does with frames

  function Hear(held: set<nat>, f: Frame): (r: set<nat>)
  {
    if f.Ordinary? then held + {f.Alert()} else held - {f.Alert()}
  }

  function HearAll(held: set<nat>, frames: seq<Frame>): (r: set<nat>)
  {
    if frames == [] then held else Hear(HearAll(held, frames[..|frames| - 1]), frames[|frames| - 1])
  }

  /** The stream's last word on an alert is labels this reader sees. */
  predicate Shown(rx: Regex, r: Reader, log: seq<StreamEvent>, id: nat)
  {
    var labels := LastLabels(log, id);
    labels.Some? && Sees(rx, r, labels.value)
  }

  /** The frames this reader is due for the events numbered `i` up to `k`. */
  function Due(rx: Regex, r: Reader, log: seq<StreamEvent>, i: nat, k: nat): (frames: seq<Frame>)
    requires i <= k <= |log|
  {
    if k == i then []
    else
      var f := FrameOf(rx, r, log[k - 1]);
      var rest := Due(rx, r, log, i, k - 1);
      if f.Some? then rest + [f.value] else rest
  }

  function Appending(f: Option<Frame>): (frames: seq<Frame>) { if f.Some? then [f.value] else [] }

  lemma FramesNext(rx: Regex, r: Reader, log: seq<StreamEvent>, j: nat, k: nat)
    requires j < k <= |log|
    ensures FramesOf(rx, r, log[j..k]) == FramesOf(rx, r, log[j..k - 1]) + Appending(FrameOf(rx, r, log[k - 1]))
  {
    var events := log[j..k];
    assert events[..|events| - 1] == log[j..k - 1] && events[|events| - 1] == log[k - 1];
  }

  lemma DueNext(rx: Regex, r: Reader, log: seq<StreamEvent>, i: nat, k: nat)
    requires i < k <= |log|
    ensures Due(rx, r, log, i, k) == Due(rx, r, log, i, k - 1) + Appending(FrameOf(rx, r, log[k - 1]))
  {
  }

  lemma TailOf(frames: seq<Frame>, k: nat, tail: seq<Frame>)
    requires k <= |frames| && frames == frames[..k] + tail
    ensures [] + tail == frames[k..]
  {
  }

  lemma Regroup(head: seq<Frame>, tail: seq<Frame>, more: seq<Frame>)
    ensures (head + tail) + more == head + (tail + more)
  {
  }

  lemma DueAppendsNone(rx: Regex, r: Reader, log: seq<StreamEvent>, i: nat, j: nat)
    requires i <= j <= |log|
    ensures Due(rx, r, log, i, j) == Due(rx, r, log, i, j) + FramesOf(rx, r, log[j..j])
  {
    assert log[j..j] == [];
  }

  lemma DueAppendsNext(rx: Regex, r: Reader, log: seq<StreamEvent>, i: nat, j: nat, k: nat)
    requires i <= j < k <= |log|
    requires Due(rx, r, log, i, k - 1) == Due(rx, r, log, i, j) + FramesOf(rx, r, log[j..k - 1])
    ensures Due(rx, r, log, i, k) == Due(rx, r, log, i, j) + FramesOf(rx, r, log[j..k])
  {
    DueNext(rx, r, log, i, k);
    FramesNext(rx, r, log, j, k);
    Regroup(Due(rx, r, log, i, j), FramesOf(rx, r, log[j..k - 1]), Appending(FrameOf(rx, r, log[k - 1])));
  }

  lemma {:induction false} DueAppends(rx: Regex, r: Reader, log: seq<StreamEvent>, i: nat, j: nat, k: nat)
    requires i <= j <= k <= |log|
    ensures Due(rx, r, log, i, k) == Due(rx, r, log, i, j) + FramesOf(rx, r, log[j..k])
  {
    if j == k {
      DueAppendsNone(rx, r, log, i, j);
    } else {
      DueAppends(rx, r, log, i, j, k - 1);
      DueAppendsNext(rx, r, log, i, j, k);
    }
  }

  lemma {:induction false} DueStays(rx: Regex, r: Reader, log: seq<StreamEvent>, longer: seq<StreamEvent>, i: nat,
                                    k: nat)
    requires log <= longer && i <= k <= |log|
    ensures Due(rx, r, longer, i, k) == Due(rx, r, log, i, k)
  {
    if i < k {
      DueStays(rx, r, log, longer, i, k - 1);
    }
  }

  /** What a console makes of one event. */
  function Heard(rx: Regex, r: Reader, held: set<nat>, e: StreamEvent): (out: set<nat>)
  {
    var f := FrameOf(rx, r, e);
    if f.Some? then Hear(held, f.value) else held
  }

  lemma ShownNext(rx: Regex, r: Reader, log: seq<StreamEvent>, k: nat, id: nat)
    requires k < |log|
    ensures Shown(rx, r, log[..k + 1], id) ==
            if log[k].alert == id then Sees(rx, r, log[k].labels) else Shown(rx, r, log[..k], id)
  {
    assert log[..k + 1][..k] == log[..k];
  }

  /** One event moves a console and the truth together: either the console now has the truth, or
      neither of them moved. */
  lemma HearOne(rx: Regex, r: Reader, log: seq<StreamEvent>, k: nat, held: set<nat>, id: nat)
    requires k < |log| && CoherentAt(log, k)
    ensures var heard := id in Heard(rx, r, held, log[k]);
            || heard == Shown(rx, r, log[..k + 1], id)
            || (heard == (id in held) && Shown(rx, r, log[..k + 1], id) == Shown(rx, r, log[..k], id))
  {
    ShownNext(rx, r, log, k, id);
  }

  lemma HearNext(rx: Regex, r: Reader, log: seq<StreamEvent>, i: nat, k: nat, listing: set<nat>)
    requires i <= k < |log|
    ensures HearAll(listing, Due(rx, r, log, i, k + 1)) == Heard(rx, r, HearAll(listing, Due(rx, r, log, i, k)), log[k])
  {
    var front, f := Due(rx, r, log, i, k), FrameOf(rx, r, log[k]);
    if f.Some? {
      assert (front + [f.value])[..|front|] == front;
    }
  }

  /** Having heard the events up to `k`, the console shows the truth of that moment, or, while that
      moment is before the list's, the truth of the list. */
  ghost predicate Tracks(rx: Regex, r: Reader, log: seq<StreamEvent>, m: nat, k: nat, held: bool, id: nat)
    requires k <= |log| && m <= |log|
  {
    held == Shown(rx, r, log[..k], id) || (k < m && held == Shown(rx, r, log[..m], id))
  }

  lemma TracksNext(rx: Regex, r: Reader, log: seq<StreamEvent>, m: nat, k: nat, held: set<nat>, id: nat)
    requires k < |log| && m <= |log| && CoherentAt(log, k)
    requires Tracks(rx, r, log, m, k, id in held, id)
    ensures Tracks(rx, r, log, m, k + 1, id in Heard(rx, r, held, log[k]), id)
  {
    HearOne(rx, r, log, k, held, id);
  }

  /** Replaying from a cursor at or before the list. */
  lemma {:induction false} ReplayConverges(rx: Regex, r: Reader, log: seq<StreamEvent>, i: nat, m: nat, k: nat,
                                           listing: set<nat>, id: nat)
    requires Coherent(log) && i <= k <= |log| && i <= m <= |log|
    requires (id in listing) == Shown(rx, r, log[..m], id)
    ensures Tracks(rx, r, log, m, k, id in HearAll(listing, Due(rx, r, log, i, k)), id)
  {
    if i < k {
      ReplayConverges(rx, r, log, i, m, k - 1, listing, id);
      HearNext(rx, r, log, i, k - 1, listing);
      assert CoherentAt(log, k - 1);
      TracksNext(rx, r, log, m, k - 1, HearAll(listing, Due(rx, r, log, i, k - 1)), id);
    }
  }

  // ---------------------------------------------------------------- cursors and places in the log

  /** How many events a cursor has behind it. Ids have holes, so this is not the cursor itself. */
  function UpTo(log: seq<StreamEvent>, id: nat): (n: nat)
    ensures n <= |log|
  {
    if log == [] then 0 else if log[|log| - 1].id <= id then |log| else UpTo(log[..|log| - 1], id)
  }

  lemma {:induction false} UpToSplits(log: seq<StreamEvent>, id: nat, i: nat)
    requires Increasing(log) && i < |log|
    ensures i < UpTo(log, id) <==> log[i].id <= id
  {
    if id < log[|log| - 1].id && i < |log| - 1 {
      UpToSplits(log[..|log| - 1], id, i);
    }
  }

  lemma UpToGrows(log: seq<StreamEvent>, a: nat, b: nat)
    requires Increasing(log) && a <= b
    ensures UpTo(log, a) <= UpTo(log, b)
  {
    if UpTo(log, b) < UpTo(log, a) {
      UpToSplits(log, a, UpTo(log, b));
      UpToSplits(log, b, UpTo(log, b));
    }
  }

  lemma UpToEvent(log: seq<StreamEvent>, k: nat)
    requires Increasing(log) && k < |log|
    ensures UpTo(log, log[k].id) == k + 1
  {
    UpToSplits(log, log[k].id, k);
    if k + 1 < |log| {
      UpToSplits(log, log[k].id, k + 1);
    }
  }

  lemma FrontAllBelow(log: seq<StreamEvent>, id: nat)
    requires Increasing(log) && log != [] && log[|log| - 1].id <= id
    ensures UpTo(log[..|log| - 1], id) == |log| - 1
  {
  }

  lemma TakeOneMore(log: seq<StreamEvent>, n: nat)
    requires n < |log|
    ensures log[..|log| - 1][n..] + [log[|log| - 1]] == log[n..]
  {
  }

  /** A stretch of ids is a stretch of the log. */
  lemma {:induction false} BetweenIsSlice(log: seq<StreamEvent>, a: nat, b: nat)
    requires Increasing(log) && a <= b
    ensures UpTo(log, a) <= UpTo(log, b) && Between(log, a, b) == log[UpTo(log, a)..UpTo(log, b)]
  {
    UpToGrows(log, a, b);
    if log != [] {
      var front, e := log[..|log| - 1], log[|log| - 1];
      BetweenIsSlice(front, a, b);
      if b < e.id {
        assert front[UpTo(front, a)..UpTo(front, b)] == log[UpTo(front, a)..UpTo(front, b)];
      } else if a < e.id {
        FrontAllBelow(log, b);
        TakeOneMore(log, UpTo(front, a));
        assert front[UpTo(front, a)..|front|] == front[UpTo(front, a)..];
      } else {
        FrontAllBelow(log, a);
        FrontAllBelow(log, b);
      }
    }
  }

  /** What is appended is numbered past what was there. */
  lemma NothingBeyond(log: seq<StreamEvent>, longer: seq<StreamEvent>)
    requires Increasing(longer) && log < longer
    ensures LastId(log) < LastId(longer)
  {
    if log != [] {
      assert log[|log| - 1] == longer[|log| - 1];
    }
  }

  lemma {:induction false} UpToStays(log: seq<StreamEvent>, longer: seq<StreamEvent>, id: nat)
    requires Increasing(longer) && log <= longer && id <= LastId(log)
    ensures UpTo(longer, id) == UpTo(log, id)
  {
    if log == longer {
    } else if longer[|longer| - 1].id <= id {
      NothingBeyond(log, longer);
    } else {
      assert log <= longer[..|longer| - 1];
      UpToStays(log, longer[..|longer| - 1], id);
    }
  }

  lemma CaughtUpMeans(log: seq<StreamEvent>, pos: nat)
    requires Increasing(log) && pos <= LastId(log)
    ensures UpTo(log, pos) == |log| <==> pos == LastId(log)
  {
    if log != [] {
      UpToSplits(log, pos, |log| - 1);
    }
  }

  // ---------------------------------------------------------------- the whole system

  /** A console: nothing yet, a cursor in hand, or a list in hand and a stream open. It was opened at cursor `first`;
      what it holds is its latest list and what was delivered to it from `start` on. `listedAt` is how much of the
      log had been written when that list was read. `whole` is whether no window polled from cursor 0 had lost an
      event the reader could see; opened at a positive cursor it stays true. */
  datatype Console =
    | Fresh
    | HasCursor(cursor: nat)
    | Listening(first: nat, start: nat, pos: nat, delivered: seq<Frame>, gapped: bool, whole: bool,
                listing: set<nat>, listedAt: nat)

  /** `log` is the database's log under the ids its events were given at commit. */
  datatype System = System(db: Db, log: seq<StreamEvent>, deleted: set<nat>, deletedThrough: nat, console: Console)
  {
    function Serving(): Server { Server(log, deleted, deletedThrough) }
  }

  const START := System(EMPTY_DB, [], {}, 0, Fresh)

  /** Alerts whose current labels this reader sees. */
  function InSight(rx: Regex, r: Reader, rows: seq<Row>): (ids: set<nat>)
  {
    set id | 0 <= id < |rows| && Sees(rx, r, rows[id].labels)
  }

  function Held(c: Console): (ids: set<nat>)
    requires c.Listening?
  {
    HearAll(c.listing, c.delivered)
  }

  /** `readStreamCursor`: the highest surviving id the caller may read about, with no view applied. */
  function SnapshotCursor(rx: Regex, p: Principal, table: seq<StreamEvent>): (id: nat)
  {
    if table == [] then 0
    else
      var e := table[|table| - 1];
      var rest := SnapshotCursor(rx, p, table[..|table| - 1]);
      if Concerns(rx, p, Resolve(p, None), e.labels, e.previous) then Max(e.id, rest) else rest
  }

  /** The caller may read the alert as it is, or could read it as it was. */
  predicate ReadableEvent(rx: Regex, p: Principal, e: StreamEvent)
  {
    Readable(rx, p, e.labels) || (e.previous.Some? && Readable(rx, p, e.previous.value))
  }

  /** The cursor handed out with a list is the highest surviving id the caller may read about, 0 if there is none. */
  lemma {:induction false} SnapshotCursorIs(rx: Regex, p: Principal, table: seq<StreamEvent>)
    ensures var id := SnapshotCursor(rx, p, table);
            && (forall i | 0 <= i < |table| && ReadableEvent(rx, p, table[i]) :: table[i].id <= id)
            && (id != 0 ==> exists i | 0 <= i < |table| :: table[i].id == id && ReadableEvent(rx, p, table[i]))
  {
    if table != [] {
      var front, e := table[..|table| - 1], table[|table| - 1];
      SnapshotCursorIs(rx, p, front);
      assert ReadableEvent(rx, p, e) <==> Concerns(rx, p, Resolve(p, None), e.labels, e.previous);
      var id := SnapshotCursor(rx, p, table);
      if id != 0 && id == SnapshotCursor(rx, p, front) {
        var i :| 0 <= i < |front| && front[i].id == id && ReadableEvent(rx, p, front[i]);
        assert table[i] == front[i];
      } else if id != 0 {
        assert table[|table| - 1].id == id;
      }
      forall i | 0 <= i < |table| && ReadableEvent(rx, p, table[i]) ensures table[i].id <= id {
        assert i < |front| ==> table[i] == front[i];
      }
    }
  }

  datatype Step =
    | Act(op: Lifecycle.Op, holes: seq<nat>)
    | PruneOlder(cutoff: int)
    | ReadCursor
    | ReadList
    | Poll
    | Resume(received: nat)
    | Relist(received: nat)

  /** A commit gives an event the next id, past the hole the sequence left. */
  function NumberedPast(log: seq<StreamEvent>, e: StreamEvent, hole: nat): (r: StreamEvent)
  {
    e.(id := LastId(log) + 1 + hole)
  }

  /** Newly written events, numbered past the log's last in turn. */
  function Committed(log: seq<StreamEvent>, events: seq<StreamEvent>, holes: seq<nat>): (r: seq<StreamEvent>)
    ensures |r| == |log| + |events|
  {
    if events == [] then log
    else
      var n := |events| - 1;
      var before := Committed(log, events[..n], holes);
      before + [NumberedPast(before, events[n], if n < |holes| then holes[n] else 0)]
  }

  lemma CommittedNext(log: seq<StreamEvent>, events: seq<StreamEvent>, holes: seq<nat>)
    requires events != []
    ensures var n := |events| - 1;
            var before := Committed(log, events[..n], holes);
            Committed(log, events, holes) ==
            before + [events[n].(id := LastId(before) + 1 + (if n < |holes| then holes[n] else 0))]
  {
  }

  lemma {:induction false} CommittedAfter(log: seq<StreamEvent>, events: seq<StreamEvent>, holes: seq<nat>)
    ensures log <= Committed(log, events, holes)
  {
    if events != [] {
      CommittedNext(log, events, holes);
      CommittedAfter(log, events[..|events| - 1], holes);
    }
  }

  /** Each event gets the next id past the hole left for it, and is otherwise as it was written. */
  lemma {:induction false} HolesAreLeft(log: seq<StreamEvent>, events: seq<StreamEvent>, holes: seq<nat>, i: nat)
    requires i < |events|
    ensures var out := Committed(log, events, holes);
            out[|log| + i] == events[i].(id := LastId(out[..|log| + i]) + 1 + (if i < |holes| then holes[i] else 0))
  {
    var n := |events| - 1;
    var before, out := Committed(log, events[..n], holes), Committed(log, events, holes);
    CommittedNext(log, events, holes);
    if i < n {
      HolesAreLeft(log, events[..n], holes, i);
      assert out[..|log| + i] == before[..|log| + i];
    } else {
      assert out[..|log| + i] == before;
    }
  }

  /** What a turn from `pos` to `stop` shows the reader is all there ever was to show. */
  ghost predicate Intact(rx: Regex, r: Reader, s: Server, pos: nat, stop: nat)
  {
    pos > 0 || !Misses(rx, s.log, s.deleted, pos, stop, r)
  }

  /** What the console has after one more turn of the poll loop. */
  ghost function Polled(rx: Regex, r: Reader, s: Server, c: Console): (out: Console)
    requires c.Listening?
    ensures out.Listening?
  {
    var turn := Stream.Poll(rx, s, Conn(c.start, c.pos, c.delivered, []), r);
    c.(pos := turn.pos, delivered := turn.delivered, gapped := c.gapped || turn.legs[0].gap,
       whole := c.whole && Intact(rx, r, s, c.pos, turn.pos))
  }

  /** The connection broke after `received` frames; the console reconnects from the last id it saw. */
  function Resumed(c: Console, received: nat): (out: Console)
    requires c.Listening? && received <= |c.delivered|
    ensures out.Listening?
  {
    c.(pos := if received == 0 then c.start else c.delivered[received - 1].Id(), delivered := c.delivered[..received])
  }

  /** The list is read again under a live stream. `received` frames had arrived; the rest are still on their way and
      will be heard on top of the new list. */
  function Relisted(c: Console, received: nat, listing: set<nat>, at: nat): (out: Console)
    requires c.Listening? && received <= |c.delivered|
    ensures out.Listening?
  {
    c.(start := Resumed(c, received).pos, delivered := c.delivered[received..], listing := listing, listedAt := at)
  }

  function JustListed(cursor: nat, listing: set<nat>, at: nat): (c: Console)
    ensures c.Listening?
  {
    Listening(cursor, cursor, cursor, [], false, true, listing, at)
  }

  ghost function Next(rx: Regex, r: Reader, w: System, step: Step): (out: System)
  {
    match step
    case Act(op, holes) =>
      var db := Lifecycle.Perform(rx, w.db, op);
      Lifecycle.PerformExtends(rx, w.db, op);
      w.(db := db, log := Committed(w.log, db.log[|w.db.log|..], holes))
    case PruneOlder(cutoff) =>
      var s := PruneBatch(w.Serving(), cutoff);
      w.(deleted := s.deleted, deletedThrough := s.deletedThrough)
    case ReadCursor => w.(console := HasCursor(SnapshotCursor(rx, r.principal, Kept(w.log, w.deleted))))
    case ReadList =>
      if w.console.HasCursor? then
        w.(console := JustListed(w.console.cursor, InSight(rx, r, w.db.rows), |w.log|))
      else w
    case Poll => if w.console.Listening? then w.(console := Polled(rx, r, w.Serving(), w.console)) else w
    case Resume(received) =>
      if w.console.Listening? && received <= |w.console.delivered| then w.(console := Resumed(w.console, received))
      else w
    case Relist(received) =>
      if w.console.Listening? && received <= |w.console.delivered| then
        w.(console := Relisted(w.console, received, InSight(rx, r, w.db.rows), |w.log|))
      else w
  }

  ghost function Run(rx: Regex, r: Reader, steps: seq<Step>): (w: System)
  {
    if steps == [] then START else Next(rx, r, Run(rx, r, steps[..|steps| - 1]), steps[|steps| - 1])
  }

  // ---------------------------------------------------------------- the invariant

  /** The same events, under their own ids. */
  ghost predicate SameEvents(a: seq<StreamEvent>, b: seq<StreamEvent>)
  {
    |a| == |b| && forall i | 0 <= i < |a| :: b[i] == a[i].(id := b[i].id)
  }

  /** The list was the truth when it was read, and no earlier than the cursor. */
  ghost predicate ListOk(rx: Regex, r: Reader, log: seq<StreamEvent>, c: Console)
    requires c.Listening?
  {
    && UpTo(log, c.start) <= c.listedAt <= |log|
    && (forall id: nat :: id in c.listing <==> Shown(rx, r, log[..c.listedAt], id))
  }

  /** Frames came in order, and without a gap, from a whole start, they are all the frames there were. */
  ghost predicate HeardOk(rx: Regex, r: Reader, log: seq<StreamEvent>, c: Console)
    requires c.Listening?
  {
    && c.start <= c.pos <= LastId(log) && UpTo(log, c.start) <= UpTo(log, c.pos)
    && InOrder(c.delivered, c.start, c.pos)
    && c.first <= c.start && (0 < c.first ==> c.whole)
    && (c.whole && !c.gapped ==> c.delivered == Due(rx, r, log, UpTo(log, c.start), UpTo(log, c.pos)))
  }

  ghost predicate ConsoleOk(rx: Regex, r: Reader, log: seq<StreamEvent>, c: Console)
  {
    && (c.HasCursor? ==> c.cursor <= LastId(log))
    && (c.Listening? ==> ListOk(rx, r, log, c) && HeardOk(rx, r, log, c))
  }

  ghost predicate SystemOk(rx: Regex, r: Reader, w: System)
  {
    Inv(w.db) && SameEvents(w.db.log, w.log) && ServerOk(w.Serving()) && ConsoleOk(rx, r, w.log, w.console)
  }

  lemma {:induction false} SameLabels(a: seq<StreamEvent>, b: seq<StreamEvent>, id: nat)
    requires SameEvents(a, b)
    ensures LastLabels(a, id) == LastLabels(b, id)
  {
    if a != [] {
      SameLabels(a[..|a| - 1], b[..|b| - 1], id);
    }
  }

  lemma SameCoherent(a: seq<StreamEvent>, b: seq<StreamEvent>)
    requires SameEvents(a, b) && Coherent(a)
    ensures Coherent(b)
  {
    forall i | 0 <= i < |b| ensures CoherentAt(b, i) {
      assert CoherentAt(a, i);
      SameLabels(a[..i], b[..i], a[i].alert);
    }
  }

  /** What the rows say is in sight is what the stream's last word says. */
  lemma InSightIsShown(rx: Regex, r: Reader, db: Db, log: seq<StreamEvent>, id: nat)
    requires Inv(db) && SameEvents(db.log, log)
    ensures id in InSight(rx, r, db.rows) <==> Shown(rx, r, log, id)
  {
    SameLabels(db.log, log, id);
    if id < |db.rows| {
      assert RowAgrees(db, id);
    } else {
      NoPast(db, id, |db.history|, |db.log|);
      assert db.log[..|db.log|] == db.log;
    }
  }

  // ---------------------------------------------------------------- every step keeps it

  lemma {:induction false} SnapshotCursorBounded(rx: Regex, p: Principal, table: seq<StreamEvent>, bound: nat)
    requires forall i | 0 <= i < |table| :: table[i].id <= bound
    ensures SnapshotCursor(rx, p, table) <= bound
  {
    if table != [] {
      SnapshotCursorBounded(rx, p, table[..|table| - 1], bound);
    }
  }

  lemma ReadCursorOk(rx: Regex, r: Reader, w: System)
    requires SystemOk(rx, r, w)
    ensures SystemOk(rx, r, Next(rx, r, w, ReadCursor))
  {
    var table := Kept(w.log, w.deleted);
    forall i | 0 <= i < |table| ensures table[i].id <= LastId(w.log) {
      KeptIsFromLog(w.log, w.deleted, table[i]);
      InLogBounded(w.log, table[i]);
    }
    SnapshotCursorBounded(rx, r.principal, table, LastId(w.log));
  }

  lemma ListIsTruth(rx: Regex, r: Reader, w: System)
    requires Inv(w.db) && SameEvents(w.db.log, w.log)
    ensures forall id: nat :: id in InSight(rx, r, w.db.rows) <==> Shown(rx, r, w.log[..|w.log|], id)
  {
    assert w.log[..|w.log|] == w.log;
    forall id: nat ensures id in InSight(rx, r, w.db.rows) <==> Shown(rx, r, w.log, id) {
      InSightIsShown(rx, r, w.db, w.log, id);
    }
  }

  lemma ReadListOk(rx: Regex, r: Reader, w: System)
    requires SystemOk(rx, r, w)
    ensures SystemOk(rx, r, Next(rx, r, w, ReadList))
  {
    ListIsTruth(rx, r, w);
  }

  lemma CommitIncreases(log: seq<StreamEvent>, e: StreamEvent, hole: nat)
    requires Increasing(log)
    ensures var out := log + [NumberedPast(log, e, hole)]; Increasing(out) && LastId(log) < LastId(out)
  {
    AppendIncreases(log, NumberedPast(log, e, hole));
  }

  lemma {:induction false} CommittedOk(log: seq<StreamEvent>, events: seq<StreamEvent>, holes: seq<nat>)
    requires Increasing(log)
    ensures Increasing(Committed(log, events, holes)) && LastId(log) <= LastId(Committed(log, events, holes))
  {
    if events != [] {
      var n := |events| - 1;
      CommittedOk(log, events[..n], holes);
      CommitIncreases(Committed(log, events[..n], holes), events[n], if n < |holes| then holes[n] else 0);
    }
  }

  lemma {:induction false} CommittedAt(log: seq<StreamEvent>, events: seq<StreamEvent>, holes: seq<nat>, i: nat)
    requires i < |events|
    ensures var e := Committed(log, events, holes)[|log| + i]; e == events[i].(id := e.id)
  {
    if i < |events| - 1 {
      CommittedAt(log, events[..|events| - 1], holes, i);
    }
  }

  lemma CommittedIsSame(db: Db, grown: Db, log: seq<StreamEvent>, holes: seq<nat>)
    requires SameEvents(db.log, log) && db.log <= grown.log
    ensures SameEvents(grown.log, Committed(log, grown.log[|db.log|..], holes))
  {
    var more := grown.log[|db.log|..];
    var out := Committed(log, more, holes);
    CommittedAfter(log, more, holes);
    forall i | 0 <= i < |out| ensures out[i] == grown.log[i].(id := out[i].id) {
      if i < |log| {
        assert out[i] == log[i];
      } else {
        CommittedAt(log, more, holes, i - |log|);
      }
    }
  }

  /** What was true of the log stays true of a longer one. */
  lemma LongerLogOk(rx: Regex, r: Reader, log: seq<StreamEvent>, longer: seq<StreamEvent>, c: Console)
    requires log <= longer && Increasing(longer) && LastId(log) <= LastId(longer) && ConsoleOk(rx, r, log, c)
    ensures ConsoleOk(rx, r, longer, c)
  {
    if c.Listening? {
      assert longer[..c.listedAt] == log[..c.listedAt];
      UpToStays(log, longer, c.start);
      UpToStays(log, longer, c.pos);
      DueStays(rx, r, log, longer, UpTo(log, c.start), UpTo(log, c.pos));
    }
  }

  lemma ActOk(rx: Regex, r: Reader, w: System, op: Lifecycle.Op, holes: seq<nat>)
    requires SystemOk(rx, r, w)
    ensures SystemOk(rx, r, Next(rx, r, w, Act(op, holes)))
  {
    var db := Lifecycle.Perform(rx, w.db, op);
    Lifecycle.PerformKeepsInv(rx, w.db, op);
    Lifecycle.PerformExtends(rx, w.db, op);
    CommittedOk(w.log, db.log[|w.db.log|..], holes);
    CommittedAfter(w.log, db.log[|w.db.log|..], holes);
    CommittedIsSame(w.db, db, w.log, holes);
    LongerLogOk(rx, r, w.log, Committed(w.log, db.log[|w.db.log|..], holes), w.console);
  }

  lemma PolledInOrder(rx: Regex, r: Reader, s: Server, c: Console)
    requires ServerOk(s) && c.Listening? && c.start <= c.pos <= LastId(s.log)
    requires InOrder(c.delivered, c.start, c.pos)
    ensures var out := Polled(rx, r, s, c);
            c.pos <= out.pos <= LastId(s.log) && InOrder(out.delivered, c.start, out.pos)
  {
    var table := Kept(s.log, s.deleted);
    var scanned := ScannedThrough(table, c.pos);
    ScanBounds(s, c.pos);
    KeptIncreases(s.log, s.deleted);
    LegFrames(rx, table, Leg(c.pos, scanned, r, false));
    InOrderAppends(c.delivered, FramesOf(rx, r, Between(table, c.pos, scanned)), c.start, c.pos, scanned);
  }

  /** A turn that announces no gap, and is intact, delivers exactly the stretch of the log it moved over. */
  lemma TurnServes(rx: Regex, r: Reader, s: Server, pos: nat)
    requires ServerOk(s) && !DueGap(s, pos)
    requires Intact(rx, r, s, pos, ScannedThrough(Kept(s.log, s.deleted), pos))
    ensures var scanned := ScannedThrough(Kept(s.log, s.deleted), pos);
            FramesOf(rx, r, Between(Kept(s.log, s.deleted), pos, scanned)) ==
              FramesOf(rx, r, Between(s.log, pos, scanned))
  {
    var scanned := ScannedThrough(Kept(s.log, s.deleted), pos);
    NothingDeletedNothingMissed(rx, s, pos, scanned, r);
    ServedIsOwedExactly(rx, s.log, s.deleted, pos, scanned, r);
  }

  lemma PollOk(rx: Regex, r: Reader, s: Server, c: Console)
    requires ServerOk(s) && c.Listening? && HeardOk(rx, r, s.log, c)
    ensures HeardOk(rx, r, s.log, Polled(rx, r, s, c))
  {
    var out := Polled(rx, r, s, c);
    PolledInOrder(rx, r, s, c);
    UpToGrows(s.log, c.start, out.pos);
    if out.whole && !out.gapped {
      TurnServes(rx, r, s, c.pos);
      BetweenIsSlice(s.log, c.pos, out.pos);
      DueAppends(rx, r, s.log, UpTo(s.log, c.start), UpTo(s.log, c.pos), UpTo(s.log, out.pos));
    }
  }

  /** Where in the log a client that received the first `k` of these frames resumes. */
  function ResumePlace(log: seq<StreamEvent>, i: nat, frames: seq<Frame>, k: nat): (n: nat)
    requires k <= |frames|
  {
    if k == 0 then i else UpTo(log, frames[k - 1].Id())
  }

  /** That place leaves exactly those frames behind it. */
  ghost predicate ResumesAt(rx: Regex, r: Reader, log: seq<StreamEvent>, i: nat, n: nat, frames: seq<Frame>, k: nat)
    requires k <= |frames| && n <= |log|
  {
    i <= ResumePlace(log, i, frames, k) <= n && Due(rx, r, log, i, ResumePlace(log, i, frames, k)) == frames[..k]
  }

  /** One event adds one frame with its own id, or nothing. */
  ghost predicate GrowsBy(front: seq<Frame>, frames: seq<Frame>, id: nat)
  {
    frames == front || (|frames| == |front| + 1 && front <= frames && frames[|front|].Id() == id)
  }

  lemma DueGrows(rx: Regex, r: Reader, log: seq<StreamEvent>, i: nat, n: nat)
    requires i < n <= |log|
    ensures GrowsBy(Due(rx, r, log, i, n - 1), Due(rx, r, log, i, n), log[n - 1].id)
  {
    DueNext(rx, r, log, i, n);
  }

  lemma PlaceStays(log: seq<StreamEvent>, i: nat, front: seq<Frame>, frames: seq<Frame>, k: nat)
    requires front <= frames && k <= |front|
    ensures frames[..k] == front[..k] && ResumePlace(log, i, frames, k) == ResumePlace(log, i, front, k)
  {
  }

  lemma PlaceOfLast(log: seq<StreamEvent>, i: nat, n: nat, front: seq<Frame>, frames: seq<Frame>, k: nat)
    requires Increasing(log) && 0 < n <= |log| && GrowsBy(front, frames, log[n - 1].id) && |front| < k <= |frames|
    ensures frames[..k] == frames && ResumePlace(log, i, frames, k) == n
  {
    UpToEvent(log, n - 1);
  }

  /** Whatever picks the frames, as long as it takes at most one from each event in turn. */
  ghost predicate GrowsAt(log: seq<StreamEvent>, due: nat -> seq<Frame>, n: nat)
    requires 0 < n <= |log|
  {
    GrowsBy(due(n - 1), due(n), log[n - 1].id)
  }

  lemma {:induction false} PickedResumes(log: seq<StreamEvent>, i: nat, due: nat -> seq<Frame>, n: nat, k: nat)
    requires Increasing(log) && i <= n <= |log| && k <= |due(n)| && due(i) == []
    requires forall m | i < m <= |log| :: GrowsAt(log, due, m)
    ensures i <= ResumePlace(log, i, due(n), k) <= n && due(ResumePlace(log, i, due(n), k)) == due(n)[..k]
  {
    if i < n {
      assert GrowsAt(log, due, n);
      if k <= |due(n - 1)| {
        PickedResumes(log, i, due, n - 1, k);
        PlaceStays(log, i, due(n - 1), due(n), k);
      } else {
        PlaceOfLast(log, i, n, due(n - 1), due(n), k);
      }
    }
  }

  /** The frames due up to each place in the log. */
  ghost predicate DueBy(rx: Regex, r: Reader, log: seq<StreamEvent>, i: nat, due: nat -> seq<Frame>)
    requires i <= |log|
  {
    forall m | i <= m <= |log| :: due(m) == Due(rx, r, log, i, m)
  }

  lemma DueByExists(rx: Regex, r: Reader, log: seq<StreamEvent>, i: nat) returns (due: nat -> seq<Frame>)
    requires i <= |log|
    ensures DueBy(rx, r, log, i, due)
  {
    due := m => if i <= m <= |log| then Due(rx, r, log, i, m) else [];
  }

  lemma DueByGrows(rx: Regex, r: Reader, log: seq<StreamEvent>, i: nat, due: nat -> seq<Frame>, m: nat)
    requires i < m <= |log| && DueBy(rx, r, log, i, due)
    ensures GrowsAt(log, due, m)
  {
    DueGrows(rx, r, log, i, m);
    assert due(m) == Due(rx, r, log, i, m) && due(m - 1) == Due(rx, r, log, i, m - 1);
  }

  lemma DueByStarts(rx: Regex, r: Reader, log: seq<StreamEvent>, i: nat, due: nat -> seq<Frame>)
    requires i <= |log| && DueBy(rx, r, log, i, due)
    ensures due(i) == []
  {
  }

  lemma ResumesBy(rx: Regex, r: Reader, log: seq<StreamEvent>, i: nat, due: nat -> seq<Frame>, n: nat, k: nat)
    requires i <= n <= |log| && DueBy(rx, r, log, i, due) && k <= |due(n)|
    requires i <= ResumePlace(log, i, due(n), k) <= n && due(ResumePlace(log, i, due(n), k)) == due(n)[..k]
    ensures ResumesAt(rx, r, log, i, n, due(n), k)
  {
  }

  /** Cutting a delivery short and resuming after its last frame loses nothing and repeats nothing. */
  lemma ResumeIsExact(rx: Regex, r: Reader, log: seq<StreamEvent>, i: nat, n: nat, k: nat)
    requires Increasing(log) && i <= n <= |log| && k <= |Due(rx, r, log, i, n)|
    ensures ResumesAt(rx, r, log, i, n, Due(rx, r, log, i, n), k)
  {
    var due := DueByExists(rx, r, log, i);
    DueByStarts(rx, r, log, i, due);
    forall m | i < m <= |log| ensures GrowsAt(log, due, m) {
      DueByGrows(rx, r, log, i, due, m);
    }
    PickedResumes(log, i, due, n, k);
    ResumesBy(rx, r, log, i, due, n, k);
  }

  lemma CutInOrder(frames: seq<Frame>, start: nat, pos: nat, k: nat)
    requires InOrder(frames, start, pos) && start <= pos && k <= |frames|
    ensures var to := if k == 0 then start else frames[k - 1].Id();
            start <= to <= pos && InOrder(frames[..k], start, to)
  {
  }

  lemma ResumeOk(rx: Regex, r: Reader, log: seq<StreamEvent>, c: Console, received: nat)
    requires Increasing(log) && c.Listening? && HeardOk(rx, r, log, c) && received <= |c.delivered|
    ensures HeardOk(rx, r, log, Resumed(c, received))
  {
    CutInOrder(c.delivered, c.start, c.pos, received);
    UpToGrows(log, c.start, Resumed(c, received).pos);
    if c.whole && !c.gapped {
      ResumeIsExact(rx, r, log, UpTo(log, c.start), UpTo(log, c.pos), received);
    }
  }

  /** The frames after the first `k` are those due from where they leave off. */
  lemma DueSplits(rx: Regex, r: Reader, log: seq<StreamEvent>, i: nat, n: nat, k: nat)
    requires Increasing(log) && i <= n <= |log| && k <= |Due(rx, r, log, i, n)|
    ensures var frames := Due(rx, r, log, i, n);
            var place := ResumePlace(log, i, frames, k);
            i <= place <= n && Due(rx, r, log, place, n) == frames[k..]
  {
    var frames := Due(rx, r, log, i, n);
    var place := ResumePlace(log, i, frames, k);
    ResumeIsExact(rx, r, log, i, n, k);
    DueAppends(rx, r, log, i, place, n);
    DueAppends(rx, r, log, place, place, n);
    TailOf(frames, k, FramesOf(rx, r, log[place..n]));
  }

  lemma RestInOrder(frames: seq<Frame>, start: nat, pos: nat, k: nat)
    requires InOrder(frames, start, pos) && start <= pos && k <= |frames|
    ensures InOrder(frames[k..], if k == 0 then start else frames[k - 1].Id(), pos)
  {
  }

  lemma RelistOk(rx: Regex, r: Reader, log: seq<StreamEvent>, c: Console, received: nat, listing: set<nat>, at: nat)
    requires Increasing(log) && c.Listening? && HeardOk(rx, r, log, c) && received <= |c.delivered|
    ensures HeardOk(rx, r, log, Relisted(c, received, listing, at))
  {
    var out := Relisted(c, received, listing, at);
    CutInOrder(c.delivered, c.start, c.pos, received);
    RestInOrder(c.delivered, c.start, c.pos, received);
    UpToGrows(log, out.start, c.pos);
    if c.whole && !c.gapped {
      DueSplits(rx, r, log, UpTo(log, c.start), UpTo(log, c.pos), received);
    }
  }

  lemma RelistStepOk(rx: Regex, r: Reader, w: System, received: nat)
    requires SystemOk(rx, r, w) && w.console.Listening? && received <= |w.console.delivered|
    ensures SystemOk(rx, r, Next(rx, r, w, Relist(received)))
  {
    var c := w.console;
    RelistOk(rx, r, w.log, c, received, InSight(rx, r, w.db.rows), |w.log|);
    ListIsTruth(rx, r, w);
  }

  lemma NextOk(rx: Regex, r: Reader, w: System, step: Step)
    requires SystemOk(rx, r, w)
    ensures SystemOk(rx, r, Next(rx, r, w, step))
  {
    match step
    case Act(op, holes) => ActOk(rx, r, w, op, holes);
    case PruneOlder(cutoff) => PruneKeepsServer(w.Serving(), cutoff);
    case ReadCursor => ReadCursorOk(rx, r, w);
    case ReadList => ReadListOk(rx, r, w);
    case Poll =>
      if w.console.Listening? {
        PollOk(rx, r, w.Serving(), w.console);
      }
    case Resume(received) =>
      if w.console.Listening? && received <= |w.console.delivered| {
        ResumeOk(rx, r, w.log, w.console, received);
      }
    case Relist(received) =>
      if w.console.Listening? && received <= |w.console.delivered| {
        RelistStepOk(rx, r, w, received);
      }
  }

  lemma {:induction false} RunOk(rx: Regex, r: Reader, steps: seq<Step>)
    ensures SystemOk(rx, r, Run(rx, r, steps))
  {
    if steps != [] {
      RunOk(rx, r, steps[..|steps| - 1]);
      NextOk(rx, r, Run(rx, r, steps[..|steps| - 1]), steps[|steps| - 1]);
    }
  }

  // ---------------------------------------------------------------- the theorem

  lemma {:induction false} AfterIsComplete(table: seq<StreamEvent>, a: nat, i: nat)
    requires i < |table| && a < table[i].id
    ensures After(table, a) != []
  {
    if i < |table| - 1 {
      AfterIsComplete(table[..|table| - 1], a, i);
    }
  }

  /** A turn that neither moves nor announces a gap means there is nothing left to hear; at cursor 0, nothing
      that survives. */
  lemma StandingStillIsCaughtUp(rx: Regex, r: Reader, w: System)
    requires SystemOk(rx, r, w) && w.console.Listening? && !w.console.gapped
    ensures var turn := Polled(rx, r, w.Serving(), w.console);
            0 < w.console.pos ==> (turn.pos == w.console.pos && !turn.gapped <==> w.console.pos == LastId(w.log))
  {
    var s, pos := w.Serving(), w.console.pos;
    if 0 < pos && w.deletedThrough <= pos {
      ScanBounds(s, pos);
      WindowIsExact(s, pos);
      if pos < LastId(w.log) {
        var e := w.log[|w.log| - 1];
        KeptIsFromLog(s.log, s.deleted, e);
        var i :| 0 <= i < |Kept(s.log, s.deleted)| && Kept(s.log, s.deleted)[i] == e;
        AfterIsComplete(Kept(s.log, s.deleted), pos, i);
      }
    }
  }

  /** A console that was whole so far, has heard of no gap and has caught up. */
  ghost predicate Settled(w: System)
  {
    && w.console.Listening? && w.console.whole && !w.console.gapped
    && w.console.pos == LastId(w.log)
  }

  lemma SettledShows(rx: Regex, r: Reader, w: System)
    requires SystemOk(rx, r, w) && Settled(w)
    ensures Held(w.console) == InSight(rx, r, w.db.rows)
  {
    var c := w.console;
    CaughtUpMeans(w.log, c.pos);
    SameCoherent(w.db.log, w.log);
    forall id: nat ensures id in Held(c) <==> id in InSight(rx, r, w.db.rows) {
      ReplayConverges(rx, r, w.log, UpTo(w.log, c.start), c.listedAt, |w.log|, c.listing, id);
      assert w.log[..|w.log|] == w.log;
      InSightIsShown(rx, r, w.db, w.log, id);
    }
  }

  /** Over every interleaving of writers, retention, polls, reconnections and re-read lists, whatever holes the ids
      have, a settled console holds exactly the alerts whose current labels are in its scope and in its view. */
  lemma ConsoleConverges(rx: Regex, r: Reader, steps: seq<Step>)
    ensures var w := Run(rx, r, steps);
            Settled(w) ==> Held(w.console) == InSight(rx, r, w.db.rows)
  {
    RunOk(rx, r, steps);
    if Settled(Run(rx, r, steps)) {
      SettledShows(rx, r, Run(rx, r, steps));
    }
  }

  /** A console that read its list again after the last frame it was sent needs no frames at all: the list is it. */
  lemma QuietListIsCurrent(rx: Regex, r: Reader, steps: seq<Step>)
    ensures var w := Run(rx, r, steps);
            Settled(w) && w.console.delivered == [] ==> w.console.listing == InSight(rx, r, w.db.rows)
  {
    ConsoleConverges(rx, r, steps);
  }

  /** When a console is whole: always when opened at a positive cursor; and at cursor 0 as long as a poll that leaves
      it finds the watermark still at zero. */
  lemma WholeWhen(rx: Regex, r: Reader, steps: seq<Step>)
    ensures var w := Run(rx, r, steps);
            && (w.console.Listening? && 0 < w.console.first ==> w.console.whole)
            && (w.console.Listening? && w.console.whole && (0 < w.console.pos || w.deletedThrough == 0) ==>
                  Polled(rx, r, w.Serving(), w.console).whole)
  {
    var w := Run(rx, r, steps);
    RunOk(rx, r, steps);
    if w.console.Listening? {
      NothingDeletedNothingMissed(rx, w.Serving(), 0, Polled(rx, r, w.Serving(), w.console).pos, r);
    }
  }

  // ---------------------------------------------------------------- a console that is not whole

  /** Anybody may read everything, and asks for no view. */
  const EVERYBODY := Reader(Principal("", "", true, [], []), None)

  lemma EverybodySees(rx: Regex, labels: Labels)
    ensures Sees(rx, EVERYBODY, labels)
  {
  }

  lemma RunNext(rx: Regex, r: Reader, steps: seq<Step>, step: Step)
    ensures Run(rx, r, steps + [step]) == Next(rx, r, Run(rx, r, steps), step)
  {
    assert (steps + [step])[..|steps|] == steps;
  }

  const OPENED_EMPTY: seq<Step> := [] + [ReadCursor] + [ReadList]

  lemma OpenedEmpty(rx: Regex)
    ensures Run(rx, EVERYBODY, OPENED_EMPTY) == START.(console := JustListed(0, {}, 0))
  {
    RunNext(rx, EVERYBODY, [], ReadCursor);
    RunNext(rx, EVERYBODY, [] + [ReadCursor], ReadList);
    assert InSight(rx, EVERYBODY, []) == {};
  }

  /** A delivery of one new alert, as the running system sees it. */
  lemma DeliverNew(rx: Regex, r: Reader, w: System, a: Ingest.Incoming)
    requires Ingest.FindRow(w.db.rows, a.source, a.fingerprint).None?
    ensures var out := Next(rx, r, w, Act(Lifecycle.Deliver([a]), []));
            && out == w.(db := Ingest.IngestAll(w.db, [a]),
                         log := w.log + [Ingest.Arrival(a, |w.db.rows|).(id := LastId(w.log) + 1)])
            && out.db.rows == w.db.rows + [Ingest.NewRow(a)]
  {
    var db := Ingest.IngestAll(w.db, [a]);
    Ingest.NewlyDelivered(w.db, a);
    var more := db.log[|w.db.log|..];
    assert more == [Ingest.Arrival(a, |w.db.rows|).(id := |w.db.log| + 1)] && more[..0] == [];
    assert Committed(w.log, more[..0], []) == w.log;
  }

  function FirstDelivered(a: Ingest.Incoming): (steps: seq<Step>) { OPENED_EMPTY + [Act(Lifecycle.Deliver([a]), [])] }

  function ThenPruned(a: Ingest.Incoming): (steps: seq<Step>) { FirstDelivered(a) + [PruneOlder(a.receivedAt + 1)] }

  function BothDelivered(a: Ingest.Incoming, b: Ingest.Incoming): (steps: seq<Step>)
  {
    ThenPruned(a) + [Act(Lifecycle.Deliver([b]), [])]
  }

  /** Two alerts stored, one event deleted, one surviving, and a console still at 0. */
  ghost predicate OneSurvives(w: System, a: Ingest.Incoming, b: Ingest.Incoming)
  {
    && w.db.rows == [Ingest.NewRow(a), Ingest.NewRow(b)]
    && w.log == [Ingest.Arrival(a, 0).(id := 1), Ingest.Arrival(b, 1).(id := 2)]
    && w.deleted == {1} && w.deletedThrough == 1 && w.console == JustListed(0, {}, 0)
  }

  ghost predicate OnePruned(w: System, a: Ingest.Incoming)
  {
    && w.db.rows == [Ingest.NewRow(a)] && w.log == [Ingest.Arrival(a, 0).(id := 1)]
    && w.deleted == {1} && w.deletedThrough == 1 && w.console == JustListed(0, {}, 0)
  }

  ghost predicate OneStored(w: System, a: Ingest.Incoming)
  {
    && w.db.rows == [Ingest.NewRow(a)] && w.log == [Ingest.Arrival(a, 0).(id := 1)]
    && w.deleted == {} && w.deletedThrough == 0 && w.console == JustListed(0, {}, 0)
  }

  lemma FirstArrives(rx: Regex, w: System, a: Ingest.Incoming)
    requires w == START.(console := JustListed(0, {}, 0))
    ensures OneStored(Next(rx, EVERYBODY, w, Act(Lifecycle.Deliver([a]), [])), a)
  {
    DeliverNew(rx, EVERYBODY, w, a);
  }

  lemma FirstStored(rx: Regex, a: Ingest.Incoming)
    ensures OneStored(Run(rx, EVERYBODY, FirstDelivered(a)), a)
  {
    OpenedEmpty(rx);
    FirstArrives(rx, Run(rx, EVERYBODY, OPENED_EMPTY), a);
    RunNext(rx, EVERYBODY, OPENED_EMPTY, Act(Lifecycle.Deliver([a]), []));
  }

  lemma FirstPruned(rx: Regex, w: System, a: Ingest.Incoming)
    requires OneStored(w, a)
    ensures OnePruned(Next(rx, EVERYBODY, w, PruneOlder(a.receivedAt + 1)), a)
  {
    PruneTakesOnly(Ingest.Arrival(a, 0).(id := 1), a.receivedAt + 1);
  }

  lemma AfterThePrune(rx: Regex, a: Ingest.Incoming)
    ensures OnePruned(Run(rx, EVERYBODY, ThenPruned(a)), a)
  {
    FirstStored(rx, a);
    FirstPruned(rx, Run(rx, EVERYBODY, FirstDelivered(a)), a);
    RunNext(rx, EVERYBODY, FirstDelivered(a), PruneOlder(a.receivedAt + 1));
  }

  lemma NotThereYet(a: Ingest.Incoming, b: Ingest.Incoming)
    requires a.source != b.source || a.fingerprint != b.fingerprint
    ensures Ingest.FindRow([Ingest.NewRow(a)], b.source, b.fingerprint).None?
  {
  }

  lemma SecondDelivered(rx: Regex, w: System, a: Ingest.Incoming, b: Ingest.Incoming)
    requires (a.source != b.source || a.fingerprint != b.fingerprint) && OnePruned(w, a)
    ensures OneSurvives(Next(rx, EVERYBODY, w, Act(Lifecycle.Deliver([b]), [])), a, b)
  {
    NotThereYet(a, b);
    DeliverNew(rx, EVERYBODY, w, b);
  }

  lemma BeforeThePoll(rx: Regex, a: Ingest.Incoming, b: Ingest.Incoming)
    requires a.source != b.source || a.fingerprint != b.fingerprint
    ensures OneSurvives(Run(rx, EVERYBODY, BothDelivered(a, b)), a, b)
  {
    AfterThePrune(rx, a);
    SecondDelivered(rx, Run(rx, EVERYBODY, ThenPruned(a)), a, b);
    RunNext(rx, EVERYBODY, ThenPruned(a), Act(Lifecycle.Deliver([b]), []));
  }

  lemma HearSingle(f: Frame)
    requires f.Ordinary?
    ensures HearAll({}, [f]) == {f.Alert()}
  {
    assert [f][..0] == [];
  }

  lemma HearSecond(rx: Regex, e: StreamEvent)
    ensures var frames := FramesOf(rx, EVERYBODY, [e]); HearAll({}, [] + frames) == {e.alert}
  {
    var f := FrameOf(rx, EVERYBODY, e);
    EverybodySees(rx, e.labels);
    FramesOfLast(rx, EVERYBODY, [e]);
    assert [e][..0] == [] && FramesOf(rx, EVERYBODY, []) == [];
    assert [] + ([] + [f.value]) == [f.value];
    HearSingle(f.value);
  }

  lemma PollStep(rx: Regex, r: Reader, w: System)
    requires w.console.Listening?
    ensures Next(rx, r, w, Poll) == w.(console := Polled(rx, r, w.Serving(), w.console))
  {
  }

  lemma FirstInSight(rx: Regex, rows: seq<Row>)
    requires rows != []
    ensures 0 in InSight(rx, EVERYBODY, rows)
  {
    EverybodySees(rx, rows[0].labels);
  }

  /** The poll moves to the second event, serves it alone, and announces nothing. */
  lemma PollMisses(rx: Regex, first: StreamEvent, second: StreamEvent)
    requires first.id == 1 && second.id == 2
    ensures Polled(rx, EVERYBODY, Server([first, second], {1}, 1), JustListed(0, {}, 0)) ==
            Listening(0, 0, 2, [] + FramesOf(rx, EVERYBODY, [second]), false, false, {}, 0)
  {
    var s := Server([first, second], {1}, 1);
    PollServesSecond(first, second);
    EverybodySees(rx, first.labels);
    assert s.log[0].id in s.deleted && FrameOf(rx, EVERYBODY, s.log[0]).Some?;
    assert Misses(rx, s.log, s.deleted, 0, 2, EVERYBODY);
  }

  lemma SurvivorHeard(rx: Regex, w: System, a: Ingest.Incoming, b: Ingest.Incoming)
    requires OneSurvives(w, a, b)
    ensures var c := Polled(rx, EVERYBODY, w.Serving(), w.console);
            && !c.gapped && c.pos == LastId(w.log) && !c.whole
            && 0 in InSight(rx, EVERYBODY, w.db.rows) && 0 !in Held(c)
  {
    var first, second := Ingest.Arrival(a, 0).(id := 1), Ingest.Arrival(b, 1).(id := 2);
    assert w.Serving() == Server([first, second], {1}, 1);
    PollMisses(rx, first, second);
    HearSecond(rx, second);
    FirstInSight(rx, w.db.rows);
  }

  /** Without it the theorem fails. On a fresh server a console reads cursor 0 and an empty list; one alert is
      delivered and its event pruned, another is delivered, and the console polls. It has caught up and heard of no
      gap, and it does not hold the first alert, which is in sight. */
  lemma ConsoleCanMiss(rx: Regex, a: Ingest.Incoming, b: Ingest.Incoming)
    requires a.source != b.source || a.fingerprint != b.fingerprint
    ensures var w := Run(rx, EVERYBODY, BothDelivered(a, b) + [Poll]);
            && w.console.Listening? && !w.console.gapped && w.console.pos == LastId(w.log)
            && !w.console.whole && 0 in InSight(rx, EVERYBODY, w.db.rows) && 0 !in Held(w.console)
  {
    var w := Run(rx, EVERYBODY, BothDelivered(a, b));
    BeforeThePoll(rx, a, b);
    SurvivorHeard(rx, w, a, b);
    PollStep(rx, EVERYBODY, w);
    RunNext(rx, EVERYBODY, BothDelivered(a, b), Poll);
  }
}
