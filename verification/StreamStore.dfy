/** The stream's tables as statements update them, and the loop that serves one connection. */
module StreamStore {
  import opened Prelude
  import opened AlertModel
  import opened Authorization
  import opened View
  import opened Sql
  import opened QueryCompiler
  import opened Stream

  function Without(table: seq<StreamEvent>, ids: set<nat>): (r: seq<StreamEvent>) { Kept(table, ids) }

  lemma {:induction false} WithoutMore(log: seq<StreamEvent>, deleted: set<nat>, ids: set<nat>)
    ensures Without(Kept(log, deleted), ids) == Kept(log, deleted + ids)
  {
    if log != [] {
      var front, e := log[..|log| - 1], log[|log| - 1];
      WithoutMore(front, deleted, ids);
      if e.id !in deleted {
        KeptGrows(Kept(front, deleted), e, ids);
      }
    }
  }

  lemma {:induction false} OlderOfWithout(table: seq<StreamEvent>, ids: set<nat>, cutoff: int)
    ensures OlderThan(Without(table, ids), cutoff) == Without(OlderThan(table, cutoff), ids)
  {
    if table != [] {
      var front, e := table[..|table| - 1], table[|table| - 1];
      OlderOfWithout(front, ids, cutoff);
      if e.id !in ids {
        assert (Kept(front, ids) + [e])[..|Kept(front, ids)|] == Kept(front, ids);
      }
      if e.at < cutoff {
        KeptGrows(OlderThan(front, cutoff), e, ids);
      }
    }
  }

  lemma {:induction false} AllGone(events: seq<StreamEvent>, ids: set<nat>)
    requires forall i | 0 <= i < |events| :: events[i].id in ids
    ensures Without(events, ids) == []
  {
    if events != [] {
      AllGone(events[..|events| - 1], ids);
    }
  }

  lemma {:induction false} RestAfterPrefix(events: seq<StreamEvent>, n: nat)
    requires Increasing(events) && n <= |events|
    ensures Without(events, Ids(events[..n])) == events[n..]
  {
    if n == |events| {
      assert events[..n] == events;
      AllGone(events, Ids(events));
    } else {
      var front, e := events[..|events| - 1], events[|events| - 1];
      RestAfterPrefix(front, n);
      assert front[..n] == events[..n];
      assert e.id !in Ids(events[..n]);
      assert front[n..] + [e] == events[n..];
    }
  }

  /** The one-shot specification: everything older than the cutoff goes at once. */
  function PruneAll(s: Server, cutoff: int): (r: Server)
  {
    var older := OlderThan(Kept(s.log, s.deleted), cutoff);
    s.(deleted := s.deleted + Ids(older), deletedThrough := RaisedTo(s.deletedThrough, older))
  }

  lemma OlderIncreases(s: Server, cutoff: int)
    requires ServerOk(s)
    ensures Increasing(OlderThan(Kept(s.log, s.deleted), cutoff))
  {
    KeptIncreases(s.log, s.deleted);
    SubsequenceIncreases(Kept(s.log, s.deleted), cutoff);
  }

  /** A batch takes the oldest ids and leaves the rest of them, in order, to the next. */
  lemma BatchLeavesRest(s: Server, cutoff: int)
    requires ServerOk(s)
    ensures var older := OlderThan(Kept(s.log, s.deleted), cutoff);
            var out := PruneBatch(s, cutoff);
            OlderThan(Kept(out.log, out.deleted), cutoff) == older[Min(PRUNE_BATCH, |older|)..]
  {
    var table := Kept(s.log, s.deleted);
    var older := OlderThan(table, cutoff);
    var n := Min(PRUNE_BATCH, |older|);
    assert Victims(table, cutoff) == older[..n];
    OlderIncreases(s, cutoff);
    WithoutMore(s.log, s.deleted, Ids(older[..n]));
    OlderOfWithout(table, Ids(older[..n]), cutoff);
    RestAfterPrefix(older, n);
  }

  lemma IdsSplit(events: seq<StreamEvent>, n: nat)
    requires n <= |events|
    ensures Ids(events) == Ids(events[..n]) + Ids(events[n..])
  {
    forall id | id in Ids(events) ensures id in Ids(events[..n]) + Ids(events[n..]) {
      var i :| 0 <= i < |events| && events[i].id == id;
      if i < n {
        assert events[..n][i] == events[i];
      } else {
        assert events[n..][i - n] == events[i];
      }
    }
  }

  lemma LaterTail(events: seq<StreamEvent>, n: nat)
    requires Increasing(events) && 0 < n < |events|
    ensures LastId(events[..n]) < LastId(events) && LastId(events[n..]) == LastId(events)
  {
  }

  /** The watermark after the oldest `n` and then the rest is the watermark after all. */
  lemma WatermarkInSteps(events: seq<StreamEvent>, n: nat, mark: nat)
    requires Increasing(events) && n <= |events| && (n == 0 ==> events == [])
    ensures RaisedTo(RaisedTo(mark, events[..n]), events[n..]) == RaisedTo(mark, events)
  {
    if 0 < n < |events| {
      LaterTail(events, n);
    } else {
      assert events[..n] == events && events[n..] == [];
    }
  }

  /** Batching is invisible in the end: a batch first and everything after is everything at once. */
  lemma BatchThenAll(s: Server, cutoff: int)
    requires ServerOk(s)
    ensures PruneAll(PruneBatch(s, cutoff), cutoff) == PruneAll(s, cutoff)
  {
    var older := OlderThan(Kept(s.log, s.deleted), cutoff);
    var n := Min(PRUNE_BATCH, |older|);
    assert Victims(Kept(s.log, s.deleted), cutoff) == older[..n];
    BatchLeavesRest(s, cutoff);
    IdsSplit(older, n);
    OlderIncreases(s, cutoff);
    WatermarkInSteps(older, n, s.deletedThrough);
  }

  lemma {:induction false} OlderIsComplete(table: seq<StreamEvent>, cutoff: int, e: StreamEvent)
    ensures e in table && e.at < cutoff ==> e in OlderThan(table, cutoff)
  {
    if table != [] {
      OlderIsComplete(table[..|table| - 1], cutoff, e);
      assert table == table[..|table| - 1] + [table[|table| - 1]];
    }
  }

  lemma SameIdSameEvent(table: seq<StreamEvent>, a: StreamEvent, b: StreamEvent)
    requires Increasing(table) && a in table && b in table && a.id == b.id
    ensures a == b
  {
    var i, j :| 0 <= i < |table| && 0 <= j < |table| && table[i] == a && table[j] == b;
  }

  /** After a full prune no survivor is older than the cutoff, and nothing younger went. */
  lemma PruneAllIsExact(s: Server, cutoff: int, e: StreamEvent)
    requires ServerOk(s)
    ensures var out := PruneAll(s, cutoff);
            e in Kept(out.log, out.deleted) <==> e in Kept(s.log, s.deleted) && e.at >= cutoff
  {
    var table := Kept(s.log, s.deleted);
    var older := OlderThan(table, cutoff);
    OlderIsFrom(table, cutoff);
    KeptIncreases(s.log, s.deleted);
    KeptIsFromLog(s.log, s.deleted, e);
    KeptIsFromLog(s.log, s.deleted + Ids(older), e);
    OlderIsComplete(table, cutoff, e);
    if e in table && e.at >= cutoff && e.id in Ids(older) {
      var i :| 0 <= i < |older| && older[i].id == e.id;
      SameIdSameEvent(table, older[i], e);
    }
  }

  function TupleOf(e: StreamEvent): (t: Tuple) { Tuple(e.source, "", false, false, e.labels, e.previous) }

  datatype Failure = ErrInvalidRetention

  lemma NothingLeft(s: Server, cutoff: int)
    requires OlderThan(Kept(s.log, s.deleted), cutoff) == []
    ensures PruneAll(s, cutoff) == s
  {
  }

  class EventTable {
    var events: seq<StreamEvent>
    var deletedThrough: nat
    var lastId: nat
    ghost var log: seq<StreamEvent>
    ghost var deleted: set<nat>

    ghost function AsServer(): (s: Server)
      reads this
    {
      Server(log, deleted, deletedThrough)
    }

    ghost predicate Valid()
      reads this
    {
      events == Kept(log, deleted) && ServerOk(AsServer()) && lastId == LastId(log)
    }

    constructor ()
      ensures Valid() && AsServer() == Server([], {}, 0)
    {
      events, deletedThrough, lastId, log, deleted := [], 0, 0, [], {};
    }

    method Insert(e: StreamEvent, hole: nat)
      requires Valid()
      modifies this
      ensures Valid() && AsServer() == Write(old(AsServer()), e, hole)
    {
      var stamped := e.(id := lastId + 1 + hole);
      WriteKeepsServer(AsServer(), e, hole);
      KeptGrows(log, stamped, deleted);
      assert stamped.id !in deleted;
      lastId := stamped.id;
      events := events + [stamped];
      log := log + [stamped];
    }

    /** One transaction: delete the oldest victims, then advance the watermark, never backwards. */
    method PruneStreamBatch(cutoff: int) returns (pruned: nat)
      requires Valid()
      modifies this
      ensures Valid() && AsServer() == PruneBatch(old(AsServer()), cutoff)
      ensures pruned == |Victims(old(events), cutoff)|
    {
      var victims := Victims(events, cutoff);
      PruneKeepsServer(AsServer(), cutoff);
      WithoutMore(log, deleted, Ids(victims));
      pruned := |victims|;
      events := Without(events, Ids(victims));
      deleted := deleted + Ids(victims);
      if pruned == 0 {
        return;
      }
      var highest := LastId(victims);
      deletedThrough := Max(deletedThrough, highest);
    }

    method PruneLoop(cutoff: int) returns (total: nat)
      requires Valid()
      modifies this
      ensures Valid() && AsServer() == PruneAll(old(AsServer()), cutoff)
      ensures total == |OlderThan(old(events), cutoff)|
    {
      total := 0;
      while true
        invariant Valid()
        invariant PruneAll(AsServer(), cutoff) == PruneAll(old(AsServer()), cutoff)
        invariant total + |OlderThan(events, cutoff)| == |OlderThan(old(events), cutoff)|
        decreases |OlderThan(events, cutoff)|
      {
        BatchLeavesRest(AsServer(), cutoff);
        BatchThenAll(AsServer(), cutoff);
        var pruned := PruneStreamBatch(cutoff);
        total := total + pruned;
        if pruned < PRUNE_BATCH {
          NothingLeft(AsServer(), cutoff);
          return;
        }
      }
    }

    method PruneStreamEvents(retention: int, now: int) returns (total: nat, failure: Option<Failure>)
      requires Valid()
      modifies this
      ensures Valid()
      ensures failure == if retention < 0 then Some(ErrInvalidRetention) else None
      ensures retention <= 0 ==> total == 0 && AsServer() == old(AsServer())
      ensures retention > 0 ==>
                && AsServer() == PruneAll(old(AsServer()), now - retention)
                && total == |OlderThan(old(events), now - retention)|
    {
      total, failure := 0, None;
      if retention < 0 {
        return 0, Some(ErrInvalidRetention);
      }
      if retention == 0 {
        return;
      }
      total := PruneLoop(now - retention);
    }

    /** The row loop of a poll, over the rows its compiled condition selects. */
    method StreamEvents(rx: Regex, reader: Reader, afterId: nat)
      returns (frames: seq<Frame>, scannedThrough: nat, retainedFrom: nat)
      ensures scannedThrough == ScannedThrough(events, afterId) && retainedFrom == deletedThrough
      ensures frames == FramesOf(rx, reader, Between(events, afterId, scannedThrough))
    {
      scannedThrough, retainedFrom := ScannedThrough(events, afterId), deletedThrough;
      frames := [];
      if scannedThrough == afterId {
        BetweenEmpty(events, afterId);
        return;
      }
      var p, view := reader.principal, Resolve(reader.principal, reader.options);
      var where_, args := StreamCondition(rx, p, view, [Number(afterId), Number(scannedThrough)]);
      var rows := Between(events, afterId, scannedThrough);
      var i := 0;
      while i < |rows|
        invariant 0 <= i <= |rows|
        invariant frames == FramesOf(rx, reader, rows[..i])
      {
        var e := rows[i];
        assert rows[..i + 1][..i] == rows[..i];
        assert args + [] == args;
        if Selects(rx, where_, args, TupleOf(e)) {
          var readable := CanReadLabels(rx, p, e.labels);
          var visible := readable && Includes(rx, view, e.labels);
          var wasVisible := false;
          if e.previous.Some? {
            var wasReadable := CanReadLabels(rx, p, e.previous.value);
            wasVisible := wasReadable && Includes(rx, view, e.previous.value);
          }
          if !visible && wasVisible {
            frames := frames + [Removed(e.id, e.alert, e.at)];
          } else {
            frames := frames + [Ordinary(e, Classify(rx, view, e.labels))];
          }
        }
        i := i + 1;
      }
      assert rows[..i] == rows;
    }
  }

  /** One open stream. `legs` remembers, for the proof, which stretches were served and which announced. */
  class Connection {
    const start: nat
    var afterId: nat
    var delivered: seq<Frame>
    var gaps: seq<(nat, nat)>
    ghost var legs: seq<Leg>

    ghost function AsConn(): (c: Conn)
      reads this
    {
      Conn(start, afterId, delivered, legs)
    }

    constructor (cursor: nat)
      ensures AsConn() == Opened(cursor) && gaps == []
    {
      start, afterId, delivered, gaps, legs := cursor, cursor, [], [], [];
    }

    /** One turn of the loop: announce a gap once and move past it, or serve the window and move to its end. */
    method Turn(rx: Regex, table: EventTable, reader: Reader)
      requires table.Valid()
      modifies this
      ensures AsConn() == Poll(rx, table.AsServer(), old(AsConn()), reader)
      ensures gaps == if 0 < old(afterId) < table.deletedThrough then old(gaps) + [(old(afterId), table.deletedThrough)]
              else old(gaps)
    {
      var frames, scannedThrough, retainedFrom := table.StreamEvents(rx, reader, afterId);
      if afterId > 0 && afterId < retainedFrom {
        gaps := gaps + [(afterId, retainedFrom)];
        legs := legs + [Leg(afterId, retainedFrom, reader, true)];
        afterId := retainedFrom;
        return;
      }
      delivered := delivered + frames;
      legs := legs + [Leg(afterId, scannedThrough, reader, false)];
      afterId := scannedThrough;
    }
  }
}
