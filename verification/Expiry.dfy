/** The expiry of firing alerts without recent evidence, batch by batch. */
module Expiry {
  import opened Prelude
  import opened AlertModel
  import Ingest
  import Reconcile

  const SECOND := 1_000_000        // timestamps count microseconds

  const BATCH: nat := 500

  /** The staleness windows of the listed sources (None: use `fallback`), and the time of the sweep. */
  datatype Sweep = Sweep(windows: map<string, Option<int>>, fallback: int, now: int)

  // ---------------------------------------------------------------- staleness

  /** How long this row may go without evidence: three settings, the most specific one first. */
  function Window(row: Row, sweep: Sweep): (w: int)
    requires row.source in sweep.windows
  {
    var timeout := LabelOrEmpty(row.labels, "timeout");
    if timeout != "" && forall i | 0 <= i < |timeout| :: IsDigit(timeout[i]) then DigitsValue(timeout) * SECOND
    else if sweep.windows[row.source].Some? then sweep.windows[row.source].value
    else sweep.fallback
  }

  /** The later of the last delivery and the last pass that found the alert on its source. */
  function LastEvidence(row: Row): (t: int)
  {
    if row.times.reconciledAt.Some? then Max(row.times.lastSeen, row.times.reconciledAt.value) else row.times.lastSeen
  }

  predicate Stale(row: Row, sweep: Sweep)
  {
    && row.status == Firing
    && row.source in sweep.windows
    && Window(row, sweep) > 0
    && LastEvidence(row) < sweep.now - Window(row, sweep)
  }

  function ExpiredRow(row: Row, now: int): (r: Row)
  {
    row.(status := Expired, times := row.times.(endsAt := if row.times.endsAt.Some? then row.times.endsAt
                                                else Some(now)))
  }

  function ExpireEffect(id: nat, row: Row, now: int): (eff: Effect)
  {
    var out := ExpiredRow(row, now);
    Effect(id, out,
           Some(Entry(id, row.occurrence, ExpiredBySweep, Expired, "", "", now)),
           Some(MakeEvent(EventResolved, id, out, now, None)),
           None)
  }

  // ---------------------------------------------------------------- selecting a batch, longest unseen first

  predicate Indices(rows: seq<Row>, ids: seq<nat>) { forall k | 0 <= k < |ids| :: ids[k] < |rows| }

  function InsertByAge(rows: seq<Row>, ids: seq<nat>, id: nat): (r: seq<nat>)
    requires Indices(rows, ids) && id < |rows|
    ensures Indices(rows, r) && |r| == |ids| + 1
  {
    if ids == [] then [id]
    else if rows[id].times.lastSeen < rows[ids[0]].times.lastSeen then [id] + ids
    else [ids[0]] + InsertByAge(rows, ids[1..], id)
  }

  lemma {:induction false} InsertContents(rows: seq<Row>, ids: seq<nat>, id: nat)
    requires Indices(rows, ids) && id < |rows|
    ensures multiset(InsertByAge(rows, ids, id)) == multiset(ids) + multiset{id}
  {
    if ids != [] {
      InsertContents(rows, ids[1..], id);
      assert ids == [ids[0]] + ids[1..];
    }
  }

  /** Those of the first `n` rows that pass a test, in the order of their last delivery. */
  function SelectByAge(rows: seq<Row>, test: Row -> bool, n: nat): (ids: seq<nat>)
    requires n <= |rows|
    ensures Indices(rows, ids)
  {
    if n == 0 then []
    else
      var before := SelectByAge(rows, test, n - 1);
      if test(rows[n - 1]) then InsertByAge(rows, before, n - 1) else before
  }

  lemma SelectNext(rows: seq<Row>, test: Row -> bool, n: nat)
    requires 0 < n <= |rows|
    ensures multiset(SelectByAge(rows, test, n)) ==
            multiset(SelectByAge(rows, test, n - 1)) + (if test(rows[n - 1]) then multiset([n - 1]) else multiset([]))
  {
    if test(rows[n - 1]) {
      InsertContents(rows, SelectByAge(rows, test, n - 1), n - 1);
    }
  }

  lemma {:induction false} SelectIsExact(rows: seq<Row>, test: Row -> bool, n: nat, id: nat)
    requires n <= |rows|
    ensures multiset(SelectByAge(rows, test, n))[id] == if id < n && test(rows[id]) then 1 else 0
  {
    if n > 0 {
      SelectIsExact(rows, test, n - 1, id);
      SelectNext(rows, test, n);
    }
  }

  /** The stale rows among the first `n`. */
  function StaleAmong(rows: seq<Row>, sweep: Sweep, n: nat): (ids: seq<nat>)
    requires n <= |rows|
    ensures Indices(rows, ids)
  {
    SelectByAge(rows, (row: Row) => Stale(row, sweep), n)
  }

  function StaleIds(rows: seq<Row>, sweep: Sweep): (ids: seq<nat>)
    ensures Indices(rows, ids)
  {
    StaleAmong(rows, sweep, |rows|)
  }

  /** Every stale row is selected exactly once. */
  lemma StaleAmongExact(rows: seq<Row>, sweep: Sweep, n: nat, id: nat)
    requires n <= |rows|
    ensures multiset(StaleAmong(rows, sweep, n))[id] == if id < n && Stale(rows[id], sweep) then 1 else 0
  {
    SelectIsExact(rows, (row: Row) => Stale(row, sweep), n, id);
  }

  predicate ByAge(rows: seq<Row>, ids: seq<nat>)
    requires Indices(rows, ids)
  {
    |ids| < 2 || (rows[ids[0]].times.lastSeen <= rows[ids[1]].times.lastSeen && ByAge(rows, ids[1..]))
  }

  lemma {:induction false} InsertKeepsAge(rows: seq<Row>, ids: seq<nat>, id: nat)
    requires Indices(rows, ids) && id < |rows| && ByAge(rows, ids)
    ensures ByAge(rows, InsertByAge(rows, ids, id))
    ensures var head := InsertByAge(rows, ids, id)[0]; head == id || (ids != [] && head == ids[0])
  {
    if ids != [] {
      var r := InsertByAge(rows, ids, id);
      if rows[id].times.lastSeen < rows[ids[0]].times.lastSeen {
        assert r[1..] == ids;
      } else {
        InsertKeepsAge(rows, ids[1..], id);
        assert r[1..] == InsertByAge(rows, ids[1..], id);
      }
    }
  }

  lemma {:induction false} SelectIsByAge(rows: seq<Row>, test: Row -> bool, n: nat)
    requires n <= |rows|
    ensures ByAge(rows, SelectByAge(rows, test, n))
  {
    if n > 0 {
      SelectIsByAge(rows, test, n - 1);
      InsertKeepsAge(rows, SelectByAge(rows, test, n - 1), n - 1);
    }
  }

  /** A batch takes the alerts unseen longest. */
  lemma OldestFirst(rows: seq<Row>, sweep: Sweep, n: nat)
    requires n <= |rows|
    ensures ByAge(rows, StaleAmong(rows, sweep, n))
  {
    SelectIsByAge(rows, (row: Row) => Stale(row, sweep), n);
  }

  ghost function StaleSet(rows: seq<Row>, sweep: Sweep): (s: set<nat>)
  {
    set i: nat | i < |rows| && Stale(rows[i], sweep)
  }

  // ---------------------------------------------------------------- one batch

  function ExpireIds(db: Db, ids: seq<nat>, now: int): (r: Db)
    requires Indices(db.rows, ids)
    ensures |r.rows| == |db.rows|
  {
    if ids == [] then db
    else
      var before := ExpireIds(db, ids[..|ids| - 1], now);
      var id := ids[|ids| - 1];
      Apply(before, ExpireEffect(id, before.rows[id], now))
  }

  function Batch(rows: seq<Row>, sweep: Sweep): (ids: seq<nat>)
    ensures Indices(rows, ids) && |ids| <= BATCH
  {
    var all := StaleIds(rows, sweep);
    if |all| <= BATCH then all else all[..BATCH]
  }

  lemma {:induction false} ExpireIdsRows(db: Db, ids: seq<nat>, now: int, i: nat)
    requires Indices(db.rows, ids) && i < |db.rows|
    requires forall k, l | 0 <= k < l < |ids| :: ids[k] != ids[l]
    ensures ExpireIds(db, ids, now).rows[i] == if i in ids then ExpiredRow(db.rows[i], now) else db.rows[i]
  {
    if ids != [] {
      var front := ids[..|ids| - 1];
      ExpireIdsRows(db, front, now, i);
      assert ids == front + [ids[|ids| - 1]];
    }
  }

  lemma LastCounts<T>(s: seq<T>, x: T)
    requires s != []
    ensures multiset(s)[x] == multiset(s[..|s| - 1])[x] + (if s[|s| - 1] == x then 1 else 0)
  {
    assert s == s[..|s| - 1] + [s[|s| - 1]];
  }

  /** One history entry and one stream event for each alert of the batch, and nothing else. */
  lemma {:induction false} ExpireIdsWrites(db: Db, ids: seq<nat>, now: int, id: nat)
    requires Indices(db.rows, ids)
    ensures var r := ExpireIds(db, ids, now);
            && |r.history| == |db.history| + |ids| && |r.log| == |db.log| + |ids|
            && EntriesFor(r.history, id) == EntriesFor(db.history, id) + multiset(ids)[id]
            && EventsFor(r.log, id) == EventsFor(db.log, id) + multiset(ids)[id]
  {
    if ids != [] {
      var front, last := ids[..|ids| - 1], ids[|ids| - 1];
      var before := ExpireIds(db, front, now);
      ExpireIdsWrites(db, front, now, id);
      LastCounts(ids, id);
      WritesAppend(before, ExpireEffect(last, before.rows[last], now), id);
    }
  }

  lemma {:induction false} ExpireIdsKeepsInv(db: Db, ids: seq<nat>, sweep: Sweep)
    requires Inv(db) && Indices(db.rows, ids)
    requires forall k, l | 0 <= k < l < |ids| :: ids[k] != ids[l]
    requires forall k | 0 <= k < |ids| :: Stale(db.rows[ids[k]], sweep)
    ensures Inv(ExpireIds(db, ids, sweep.now))
  {
    if ids != [] {
      var front, id := ids[..|ids| - 1], ids[|ids| - 1];
      var before := ExpireIds(db, front, sweep.now);
      ExpireIdsKeepsInv(db, front, sweep);
      assert RowAgrees(before, id);
      RowChangeKeepsInv(before, ExpireEffect(id, before.rows[id], sweep.now));
    }
  }

  lemma TwiceIsTwo<T>(s: seq<T>, k: nat, l: nat)
    requires k < l < |s| && s[k] == s[l]
    ensures multiset(s)[s[k]] >= 2
  {
    assert s == s[..l] + [s[l]] + s[l + 1..];
    assert s[k] in s[..l];
    assert s[k] in multiset(s[..l]);
  }

  lemma BatchExact(rows: seq<Row>, sweep: Sweep)
    ensures var ids := Batch(rows, sweep);
            && |ids| <= 500
            && (forall k, l | 0 <= k < l < |ids| :: ids[k] != ids[l])
            && (forall k | 0 <= k < |ids| :: ids[k] in StaleSet(rows, sweep))
            && (|ids| < 500 ==> forall id | id in StaleSet(rows, sweep) :: id in ids)
  {
    var all, ids := StaleIds(rows, sweep), Batch(rows, sweep);
    assert all[..|ids|] == ids;
    forall k, l | 0 <= k < l < |ids| ensures ids[k] != ids[l] {
      StaleAmongExact(rows, sweep, |rows|, ids[k]);
      if all[k] == all[l] {
        TwiceIsTwo(all, k, l);
      }
    }
    forall k | 0 <= k < |ids| ensures ids[k] in StaleSet(rows, sweep) {
      StaleAmongExact(rows, sweep, |rows|, ids[k]);
      assert all[k] in multiset(all);
    }
    if |ids| < BATCH {
      forall id | id in StaleSet(rows, sweep) ensures id in ids {
        StaleAmongExact(rows, sweep, |rows|, id);
        assert id in multiset(all);
      }
    }
  }

  // ---------------------------------------------------------------- the loop

  lemma BatchRows(db: Db, sweep: Sweep, i: nat)
    requires i < |db.rows|
    ensures ExpireIds(db, Batch(db.rows, sweep), sweep.now).rows[i] ==
            if i in Batch(db.rows, sweep) then ExpiredRow(db.rows[i], sweep.now) else db.rows[i]
  {
    BatchExact(db.rows, sweep);
    ExpireIdsRows(db, Batch(db.rows, sweep), sweep.now, i);
  }

  lemma ExpiredIsNotStale(row: Row, sweep: Sweep)
    ensures !Stale(ExpiredRow(row, sweep.now), sweep)
  {
  }

  lemma BatchShrinks(db: Db, sweep: Sweep)
    ensures var ids := Batch(db.rows, sweep);
            StaleSet(ExpireIds(db, ids, sweep.now).rows, sweep) ==
            StaleSet(db.rows, sweep) - (set k | 0 <= k < |ids| :: ids[k])
  {
    var ids := Batch(db.rows, sweep);
    var after := ExpireIds(db, ids, sweep.now);
    forall i: nat ensures i in StaleSet(after.rows, sweep) <==> i in StaleSet(db.rows, sweep) && i !in ids {
      if i < |db.rows| {
        BatchRows(db, sweep, i);
        ExpiredIsNotStale(db.rows[i], sweep);
      }
    }
  }

  lemma {:induction false} DistinctCount<T>(s: seq<T>)
    requires forall k, l | 0 <= k < l < |s| :: s[k] != s[l]
    ensures |set k | 0 <= k < |s| :: s[k]| == |s|
  {
    if s != [] {
      var front := s[..|s| - 1];
      DistinctCount(front);
      assert (set k | 0 <= k < |s| :: s[k]) == (set k | 0 <= k < |front| :: front[k]) + {s[|s| - 1]};
    }
  }

  lemma BatchSize(db: Db, sweep: Sweep)
    ensures var ids := Batch(db.rows, sweep);
            var left := StaleSet(ExpireIds(db, ids, sweep.now).rows, sweep);
            && |left| + |ids| == |StaleSet(db.rows, sweep)|
            && (|ids| < BATCH ==> left == {})
  {
    var ids := Batch(db.rows, sweep);
    var picked := set k | 0 <= k < |ids| :: ids[k];
    BatchExact(db.rows, sweep);
    BatchShrinks(db, sweep);
    DistinctCount(ids);
    assert picked <= StaleSet(db.rows, sweep);
  }

  /** `ExpireStaleAlerts`: batches until one comes back short. */
  ghost function ExpireStale(db: Db, sweep: Sweep): (r: (Db, nat))
    ensures |r.0.rows| == |db.rows|
    decreases |StaleSet(db.rows, sweep)|
  {
    var ids := Batch(db.rows, sweep);
    var after := ExpireIds(db, ids, sweep.now);
    BatchSize(db, sweep);
    if |ids| < BATCH then (after, |ids|)
    else
      var (rest, total) := ExpireStale(after, sweep);
      (rest, |ids| + total)
  }

  lemma ExpireUnfolds(db: Db, sweep: Sweep)
    ensures var ids := Batch(db.rows, sweep);
            var after := ExpireIds(db, ids, sweep.now);
            && (|ids| < BATCH ==> ExpireStale(db, sweep) == (after, |ids|))
            && (|ids| == BATCH ==>
                  && ExpireStale(db, sweep) == (ExpireStale(after, sweep).0, |ids| + ExpireStale(after, sweep).1)
                  && |StaleSet(after.rows, sweep)| < |StaleSet(db.rows, sweep)|)
  {
    BatchSize(db, sweep);
  }

  /** What one unbounded sweep would do to a row. */
  function SweptRow(row: Row, sweep: Sweep): (r: Row)
  {
    if Stale(row, sweep) then ExpiredRow(row, sweep.now) else row
  }

  lemma BatchMembers(rows: seq<Row>, sweep: Sweep, i: nat)
    requires i < |rows|
    ensures i in Batch(rows, sweep) ==> Stale(rows[i], sweep)
    ensures |Batch(rows, sweep)| < BATCH && Stale(rows[i], sweep) ==> i in Batch(rows, sweep)
  {
    BatchExact(rows, sweep);
    assert i in StaleSet(rows, sweep) <==> Stale(rows[i], sweep);
  }

  lemma BatchedRow(db: Db, sweep: Sweep, i: nat)
    requires i < |db.rows|
    ensures var after := ExpireIds(db, Batch(db.rows, sweep), sweep.now).rows[i];
            && SweptRow(after, sweep) == SweptRow(db.rows[i], sweep)
            && (|Batch(db.rows, sweep)| < BATCH ==> after == SweptRow(db.rows[i], sweep))
  {
    BatchRows(db, sweep, i);
    BatchMembers(db.rows, sweep, i);
    ExpiredIsNotStale(db.rows[i], sweep);
  }

  /** Batching is invisible: every stale alert is expired, no other row moves, and the total reported is
      how many were stale to begin with. */
  lemma {:induction false} BatchedExpiryIsOneSweep(db: Db, sweep: Sweep)
    ensures var (out, total) := ExpireStale(db, sweep);
            && (forall i | 0 <= i < |db.rows| :: out.rows[i] == SweptRow(db.rows[i], sweep))
            && total == |StaleSet(db.rows, sweep)|
    decreases |StaleSet(db.rows, sweep)|
  {
    var ids := Batch(db.rows, sweep);
    var after := ExpireIds(db, ids, sweep.now);
    BatchSize(db, sweep);
    if |ids| == BATCH {
      BatchedExpiryIsOneSweep(after, sweep);
    }
    var out := ExpireStale(db, sweep).0;
    forall i | 0 <= i < |db.rows| ensures out.rows[i] == SweptRow(db.rows[i], sweep) {
      BatchedRow(db, sweep, i);
    }
  }

  lemma {:induction false} OnceOrNever<T>(s: seq<T>, x: T)
    requires forall k, l | 0 <= k < l < |s| :: s[k] != s[l]
    ensures multiset(s)[x] == if x in s then 1 else 0
  {
    if s != [] {
      OnceOrNever(s[..|s| - 1], x);
      assert s == s[..|s| - 1] + [s[|s| - 1]];
    }
  }

  /** ... with exactly one history entry and one stream event for each alert it expired. */
  lemma {:induction false} ExpiryWritesOnce(db: Db, sweep: Sweep, id: nat)
    ensures var (out, total) := ExpireStale(db, sweep);
            var one := if id in StaleSet(db.rows, sweep) then 1 else 0;
            && |out.history| == |db.history| + total && |out.log| == |db.log| + total
            && EntriesFor(out.history, id) == EntriesFor(db.history, id) + one
            && EventsFor(out.log, id) == EventsFor(db.log, id) + one
    decreases |StaleSet(db.rows, sweep)|
  {
    var ids := Batch(db.rows, sweep);
    var after := ExpireIds(db, ids, sweep.now);
    BatchSize(db, sweep);
    BatchShrinks(db, sweep);
    BatchExact(db.rows, sweep);
    ExpireIdsWrites(db, ids, sweep.now, id);
    OnceOrNever(ids, id);
    if |ids| == BATCH {
      ExpiryWritesOnce(after, sweep, id);
    }
  }

  lemma {:induction false} ExpireKeepsInv(db: Db, sweep: Sweep)
    requires Inv(db)
    ensures Inv(ExpireStale(db, sweep).0)
    decreases |StaleSet(db.rows, sweep)|
  {
    var ids := Batch(db.rows, sweep);
    BatchExact(db.rows, sweep);
    BatchSize(db, sweep);
    ExpireIdsKeepsInv(db, ids, sweep);
    if |ids| == BATCH {
      ExpireKeepsInv(ExpireIds(db, ids, sweep.now), sweep);
    }
  }

  // ---------------------------------------------------------------- what a sweep may conclude

  /** Without a sign of life for longer than `w`, from a delivery or from a pass. */
  predicate Overdue(row: Row, w: int, now: int)
  {
    && row.status == Firing && 0 < w && row.times.lastSeen < now - w
    && (row.times.reconciledAt.Some? ==> row.times.reconciledAt.value < now - w)
  }

  /** The window these settings give a row: seconds in digits on its `timeout` label, whatever else is set;
      else what its source says; else the fallback. */
  predicate Grants(row: Row, sweep: Sweep, w: int)
    requires row.source in sweep.windows
  {
    var labels := row.labels;
    if "timeout" in labels && labels["timeout"] != "" && forall i | 0 <= i < |labels["timeout"]| ::
         IsDigit(labels["timeout"][i])
    then w == DigitsValue(labels["timeout"]) * 1_000_000
    else match sweep.windows[row.source]
      case Some(own) => w == own
      case None => w == sweep.fallback
  }

  /** A sweep ends exactly the firing alerts of listed sources that are overdue by the window their settings give
      them; it moves nothing but their status and, if they had none, their end. */
  lemma SweepDecides(db: Db, sweep: Sweep, id: nat, w: int)
    requires id < |db.rows| && db.rows[id].source in sweep.windows && Grants(db.rows[id], sweep, w)
    ensures var row, out := db.rows[id], ExpireStale(db, sweep).0.rows[id];
            var ended := if row.times.endsAt.Some? then row.times.endsAt else Some(sweep.now);
            out == if Overdue(row, w, sweep.now)
                   then row.(status := Expired, times := row.times.(endsAt := ended)) else row
  {
    BatchedExpiryIsOneSweep(db, sweep);
  }

  lemma SweepSkipsUnlisted(db: Db, sweep: Sweep, id: nat)
    requires id < |db.rows| && db.rows[id].source !in sweep.windows
    ensures ExpireStale(db, sweep).0.rows[id] == db.rows[id]
  {
    BatchedExpiryIsOneSweep(db, sweep);
  }

  ghost predicate ExpiryRecorded(before: Db, after: Db, id: nat, row: Row, now: int)
  {
    && Wrote(before, after, Entry(id, row.occurrence, ExpiredBySweep, Expired, "", "", now))
    && Told(before, after, EventResolved, id, ExpiredRow(row, now), now)
  }

  lemma ExpireOneRecords(db: Db, id: nat, now: int)
    requires id < |db.rows|
    ensures var after := Apply(db, ExpireEffect(id, db.rows[id], now));
            && db.history <= after.history && db.log <= after.log
            && ExpiryRecorded(db, after, id, db.rows[id], now)
  {
    ApplyWrites(db, ExpireEffect(id, db.rows[id], now));
    ApplyTells(db, ExpireEffect(id, db.rows[id], now), EventResolved, ExpiredRow(db.rows[id], now), now);
  }

  lemma RecordedEarlier(before: Db, middle: Db, after: Db, id: nat, row: Row, now: int)
    requires middle.history <= after.history && middle.log <= after.log && ExpiryRecorded(before, middle, id, row, now)
    ensures ExpiryRecorded(before, after, id, row, now)
  {
    WroteEarlier(before, middle, after, Entry(id, row.occurrence, ExpiredBySweep, Expired, "", "", now));
    ToldEarlier(before, middle, after, EventResolved, id, ExpiredRow(row, now), now);
  }

  lemma RecordedLater(before: Db, middle: Db, after: Db, id: nat, row: Row, now: int)
    requires before.history <= middle.history && before.log <= middle.log && ExpiryRecorded(middle, after, id, row, now)
    ensures ExpiryRecorded(before, after, id, row, now)
  {
    WroteLater(before, middle, after, Entry(id, row.occurrence, ExpiredBySweep, Expired, "", "", now));
    ToldLater(before, middle, after, EventResolved, id, ExpiredRow(row, now), now);
  }

  lemma {:induction false} ExpireIdsGrow(db: Db, ids: seq<nat>, now: int)
    requires Indices(db.rows, ids)
    ensures db.history <= ExpireIds(db, ids, now).history && db.log <= ExpireIds(db, ids, now).log
  {
    if ids != [] {
      ExpireIdsGrow(db, ids[..|ids| - 1], now);
    }
  }

  lemma ExpireLastRecords(db: Db, front: seq<nat>, last: nat, now: int)
    requires Indices(db.rows, front) && NoRepeats(front) && last < |db.rows| && last !in front
    ensures var middle := ExpireIds(db, front, now);
            ExpiryRecorded(db, Apply(middle, ExpireEffect(last, middle.rows[last], now)), last, db.rows[last], now)
  {
    var middle := ExpireIds(db, front, now);
    ExpireIdsGrow(db, front, now);
    ExpireIdsRows(db, front, now, last);
    ExpireOneRecords(middle, last, now);
    RecordedLater(db, middle, Apply(middle, ExpireEffect(last, middle.rows[last], now)), last, db.rows[last], now);
  }

  lemma {:induction false} ExpireIdsRecord(db: Db, ids: seq<nat>, now: int, k: nat)
    requires Indices(db.rows, ids) && NoRepeats(ids) && k < |ids|
    ensures ExpiryRecorded(db, ExpireIds(db, ids, now), ids[k], db.rows[ids[k]], now)
  {
    var front, last := ids[..|ids| - 1], ids[|ids| - 1];
    var middle := ExpireIds(db, front, now);
    if k < |front| {
      ExpireIdsRecord(db, front, now, k);
      ExpireOneRecords(middle, last, now);
      RecordedEarlier(db, middle, ExpireIds(db, ids, now), ids[k], db.rows[ids[k]], now);
    } else {
      ExpireLastRecords(db, front, last, now);
    }
  }

  lemma {:induction false} SweepGrows(db: Db, sweep: Sweep)
    ensures db.history <= ExpireStale(db, sweep).0.history && db.log <= ExpireStale(db, sweep).0.log
    decreases |StaleSet(db.rows, sweep)|
  {
    var ids := Batch(db.rows, sweep);
    ExpireIdsGrow(db, ids, sweep.now);
    ExpireUnfolds(db, sweep);
    if |ids| == BATCH {
      SweepGrows(ExpireIds(db, ids, sweep.now), sweep);
    }
  }

  lemma BatchRecords(db: Db, sweep: Sweep, id: nat)
    requires id in Batch(db.rows, sweep)
    ensures ExpiryRecorded(db, ExpireIds(db, Batch(db.rows, sweep), sweep.now), id, db.rows[id], sweep.now)
  {
    var ids := Batch(db.rows, sweep);
    BatchExact(db.rows, sweep);
    var k :| 0 <= k < |ids| && ids[k] == id;
    ExpireIdsRecord(db, ids, sweep.now, k);
  }

  lemma {:induction false} SweepRecords(db: Db, sweep: Sweep, id: nat)
    requires id < |db.rows| && Stale(db.rows[id], sweep)
    ensures ExpiryRecorded(db, ExpireStale(db, sweep).0, id, db.rows[id], sweep.now)
    decreases |StaleSet(db.rows, sweep)|
  {
    var ids := Batch(db.rows, sweep);
    var middle := ExpireIds(db, ids, sweep.now);
    var after := ExpireStale(db, sweep).0;
    ExpireUnfolds(db, sweep);
    BatchMembers(db.rows, sweep, id);
    BatchRows(db, sweep, id);
    if id in ids {
      BatchRecords(db, sweep, id);
      if |ids| == BATCH {
        SweepGrows(middle, sweep);
        RecordedEarlier(db, middle, after, id, db.rows[id], sweep.now);
      }
    } else {
      SweepRecords(middle, sweep, id);
      ExpireIdsGrow(db, ids, sweep.now);
      RecordedLater(db, middle, after, id, db.rows[id], sweep.now);
    }
  }

  /** ... and each alert it ends is written down as expired, and announced as ended. */
  lemma SweepWrites(db: Db, sweep: Sweep, id: nat, w: int)
    requires id < |db.rows| && db.rows[id].source in sweep.windows && Grants(db.rows[id], sweep, w)
    requires Overdue(db.rows[id], w, sweep.now)
    ensures var row, out := db.rows[id], ExpireStale(db, sweep).0;
            && Wrote(db, out, Entry(id, row.occurrence, ExpiredBySweep, Expired, "", "", sweep.now))
            && Told(db, out, EventResolved, id, out.rows[id], sweep.now)
  {
    SweepRecords(db, sweep, id);
    BatchedExpiryIsOneSweep(db, sweep);
  }

  /** An alert delivered, or confirmed by its source, inside its window is never retired. */
  lemma RecentEvidenceProtects(db: Db, sweep: Sweep, i: nat)
    requires i < |db.rows| && db.rows[i].source in sweep.windows
    requires var w := Window(db.rows[i], sweep);
             || sweep.now - w <= db.rows[i].times.lastSeen
             || (db.rows[i].times.reconciledAt.Some? && sweep.now - w <= db.rows[i].times.reconciledAt.value)
    ensures ExpireStale(db, sweep).0.rows[i] == db.rows[i]
  {
    BatchedExpiryIsOneSweep(db, sweep);
  }

  /** A firing delivery shields its alert for a whole window from the time it was received. */
  lemma DeliveryShields(db: Db, a: Ingest.Incoming, sweep: Sweep, id: nat, w: int)
    requires Inv(db) && a.status == Firing && a.source in sweep.windows
    requires id < |Ingest.IngestOne(db, a).rows|
    requires var row := Ingest.IngestOne(db, a).rows[id];
             row.source == a.source && row.fingerprint == a.fingerprint && Grants(row, sweep, w)
    requires sweep.now <= a.receivedAt + w
    ensures ExpireStale(Ingest.IngestOne(db, a), sweep).0.rows[id].status == Firing
  {
    var delivered := Ingest.IngestOne(db, a);
    var found := Ingest.FindRow(db.rows, a.source, a.fingerprint);
    if found.Some? {
      Ingest.DeliveryRefreshes(db, a, found.value);
    } else {
      Ingest.DeliveryCreates(db, a);
    }
    SweepDecides(delivered, sweep, id, w);
  }

  /** A pass that finds an alert on its source shields it for a whole window from then on. */
  lemma ReconciliationShields(db: Db, r: Reconcile.Reading, sweep: Sweep, i: nat)
    requires i < |db.rows| && db.rows[i].source == r.source && r.source in sweep.windows
    requires db.rows[i].fingerprint in r.live && db.rows[i].fingerprint !in r.missing && db.rows[i].status != Resolved
    requires sweep.now <= r.now + Window(db.rows[i], sweep)
    ensures var seen := Reconcile.ReconcileSource(db, r).0;
            ExpireStale(seen, sweep).0.rows[i].status == Firing
  {
    var seen := Reconcile.ReconcileSource(db, r).0;
    Reconcile.ReconcileRespects(db, r, i);
    Reconcile.ReconciledRows(db, r, i);
    RecentEvidenceProtects(seen, sweep, i);
  }

  /** A wrong guess costs nothing: expiring and reviving keeps occurrence, acknowledgement, owner and close. */
  lemma ExpireThenReviveRestores(db: Db, sweep: Sweep, r: Reconcile.Reading, i: nat)
    requires i < |db.rows| && Stale(db.rows[i], sweep)
    requires db.rows[i].source == r.source && db.rows[i].fingerprint in r.live
    ensures var out := Reconcile.ReconcileSource(ExpireStale(db, sweep).0, r).0.rows[i];
            && SummaryOf(out) == SummaryOf(db.rows[i])
            && out.acknowledged == db.rows[i].acknowledged && out.owner == db.rows[i].owner
              && out.closed == db.rows[i].closed
            && out.labels == db.rows[i].labels && out.times.endsAt == None
  {
    BatchedExpiryIsOneSweep(db, sweep);
    Reconcile.ReconciledRows(ExpireStale(db, sweep).0, r, i);
  }
}
