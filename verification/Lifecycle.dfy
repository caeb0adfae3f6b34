/** Every run of every writer: ingestion, expiry, reconciliation, operators and bulk actions. */
module Lifecycle {
  import opened Prelude
  import opened AlertModel
  import opened Ingest
  import opened Expiry
  import opened Reconcile
  import opened Operator

  datatype Op =
    | Deliver(payload: seq<Incoming>)
    | Sweep(sweep: Expiry.Sweep)
    | Align(reading: Reading)
    | Decide(id: nat, act: Act)
    | DecideMany(ids: seq<nat>, act: Act)

  ghost function Perform(rx: Regex, db: Db, op: Op): (r: Db)
  {
    match op
    case Deliver(payload) => IngestAll(db, payload)
    case Sweep(sweep) => ExpireStale(db, sweep).0
    case Align(reading) => ReconcileSource(db, reading).0
    case Decide(id, act) => Operate(rx, db, id, act).0
    case DecideMany(ids, act) => OperateEach(rx, db, Distinct(ids), act).0
  }

  /** The Suppressed and Released counts a step reports; only reconciliation has any. */
  ghost function Announced(db: Db, op: Op): (n: nat)
  {
    match op
    case Align(reading) =>
      var tally := ReconcileSource(db, reading).1;
      tally.suppressed + tally.released
    case _ => 0
  }

  ghost function Run(rx: Regex, db: Db, ops: seq<Op>): (r: Db)
  {
    if ops == [] then db else Perform(rx, Run(rx, db, ops[..|ops| - 1]), ops[|ops| - 1])
  }

  ghost function TotalAnnounced(rx: Regex, db: Db, ops: seq<Op>): (n: nat)
  {
    if ops == [] then 0
    else TotalAnnounced(rx, db, ops[..|ops| - 1]) + Announced(Run(rx, db, ops[..|ops| - 1]), ops[|ops| - 1])
  }

  lemma PerformKeepsInv(rx: Regex, db: Db, op: Op)
    requires Inv(db)
    ensures Inv(Perform(rx, db, op))
  {
    match op
    case Deliver(payload) => IngestKeepsInv(db, payload);
    case Sweep(sweep) => ExpireKeepsInv(db, sweep);
    case Align(reading) => ReconcileKeepsInv(db, reading);
    case Decide(id, act) => OperateKeepsInv(rx, db, id, act);
    case DecideMany(ids, act) => OperateEachKeepsInv(rx, db, Distinct(ids), act);
  }

  /** What a run does: each operation on what those before it left, deliveries one payload at a time, sweeps to the end,
      selections each id once. */
  lemma RunDoes(rx: Regex, db: Db, ops: seq<Op>, op: Op)
    ensures var before, after := Run(rx, db, ops), Run(rx, db, ops + [op]);
            && (op.Deliver? ==> after == IngestAll(before, op.payload))
            && (op.Sweep? ==> after == ExpireStale(before, op.sweep).0)
            && (op.Align? ==> after == ReconcileSource(before, op.reading).0)
            && (op.Decide? ==> after == Operate(rx, before, op.id, op.act).0)
            && (op.DecideMany? ==> after == OperateEach(rx, before, Distinct(op.ids), op.act).0)
    ensures Run(rx, db, []) == db
  {
    assert (ops + [op])[..|ops|] == ops;
  }

  lemma {:induction false} RunKeepsInv(rx: Regex, db: Db, ops: seq<Op>)
    requires Inv(db)
    ensures Inv(Run(rx, db, ops))
  {
    if ops != [] {
      RunKeepsInv(rx, db, ops[..|ops| - 1]);
      PerformKeepsInv(rx, Run(rx, db, ops[..|ops| - 1]), ops[|ops| - 1]);
    }
  }

  /** After any run from an empty database, every row is exactly what its history replays to, its
      occurrence is one more than the times it reopened, its status and occurrence are those of its
      last entry, and its operator marks are complete. */
  lemma RowsAreTheirHistory(rx: Regex, ops: seq<Op>, id: nat)
    requires id < |Run(rx, EMPTY_DB, ops).rows|
    ensures var db := Run(rx, EMPTY_DB, ops);
            var row := db.rows[id];
            && FoldHistory(db.history, id) ==
               Some(Summary(row.status, row.occurrence, row.acknowledged.on, row.owner.name, row.closed.on))
            && row.occurrence == 1 + CountReopened(db.history, id)
            && LastEntry(db.history, id).Some?
            && LastEntry(db.history, id).value.status == row.status
            && LastEntry(db.history, id).value.occurrence == row.occurrence
            && MarksComplete(row)
  {
    RunKeepsInv(rx, EMPTY_DB, ops);
    assert RowAgrees(Run(rx, EMPTY_DB, ops), id);
  }

  // ---------------------------------------------------------------- conservation

  lemma {:induction false} IngestConserves(db: Db, payload: seq<Incoming>)
    ensures |IngestAll(db, payload).log| - |db.log| == |IngestAll(db, payload).history| - |db.history|
  {
    if payload != [] {
      IngestConserves(db, payload[..|payload| - 1]);
    }
  }

  lemma PerformConserves(rx: Regex, db: Db, op: Op)
    ensures var r := Perform(rx, db, op);
            |r.log| - |db.log| == |r.history| - |db.history| + Announced(db, op)
  {
    match op
    case Deliver(payload) => IngestConserves(db, payload);
    case Sweep(sweep) => ExpiryWritesOnce(db, sweep, 0);
    case Align(reading) => JudgeConserves(db, reading, |db.rows|);
    case Decide(id, act) =>
    case DecideMany(ids, act) => AppliedIsWritten(rx, db, Distinct(ids), act);
  }

  /** Over any run, the stream events ever written are the history entries plus the suppressions and
      releases reported. */
  lemma {:induction false} StreamIsHistoryPlusSuppressions(rx: Regex, ops: seq<Op>)
    ensures var db := Run(rx, EMPTY_DB, ops);
            |db.log| == |db.history| + TotalAnnounced(rx, EMPTY_DB, ops)
  {
    if ops != [] {
      StreamIsHistoryPlusSuppressions(rx, ops[..|ops| - 1]);
      PerformConserves(rx, Run(rx, EMPTY_DB, ops[..|ops| - 1]), ops[|ops| - 1]);
    }
  }

  // ---------------------------------------------------------------- what every step keeps

  /** The log only grows, and no alert is ever forgotten. */
  ghost predicate Extends(a: Db, b: Db)
  {
    |a.rows| <= |b.rows| && a.log <= b.log && a.history <= b.history
  }

  lemma ExtendsTransitive(a: Db, b: Db, c: Db)
    requires Extends(a, b) && Extends(b, c)
    ensures Extends(a, c)
  {
  }

  lemma ApplyExtends(db: Db, eff: Effect)
    requires eff.id <= |db.rows|
    ensures Extends(db, Apply(db, eff))
  {
  }

  lemma {:induction false} IngestExtends(db: Db, payload: seq<Incoming>)
    ensures Extends(db, IngestAll(db, payload))
  {
    if payload != [] {
      var before := IngestAll(db, payload[..|payload| - 1]);
      IngestExtends(db, payload[..|payload| - 1]);
      ApplyExtends(before, IngestEffect(before.rows, payload[|payload| - 1]));
      ExtendsTransitive(db, before, IngestAll(db, payload));
    }
  }

  lemma {:induction false} ExpireIdsExtends(db: Db, ids: seq<nat>, now: int)
    requires Indices(db.rows, ids)
    ensures Extends(db, ExpireIds(db, ids, now))
  {
    if ids != [] {
      var before, id := ExpireIds(db, ids[..|ids| - 1], now), ids[|ids| - 1];
      ExpireIdsExtends(db, ids[..|ids| - 1], now);
      ApplyExtends(before, ExpireEffect(id, before.rows[id], now));
      ExtendsTransitive(db, before, ExpireIds(db, ids, now));
    }
  }

  lemma {:induction false} ExpireExtends(db: Db, sweep: Expiry.Sweep)
    ensures Extends(db, ExpireStale(db, sweep).0)
    decreases |StaleSet(db.rows, sweep)|
  {
    var ids := Batch(db.rows, sweep);
    BatchSize(db, sweep);
    ExpireIdsExtends(db, ids, sweep.now);
    if |ids| == BATCH {
      ExpireExtends(ExpireIds(db, ids, sweep.now), sweep);
      ExtendsTransitive(db, ExpireIds(db, ids, sweep.now), ExpireStale(db, sweep).0);
    }
  }

  lemma {:induction false} JudgeExtends(db: Db, r: Reading, n: nat)
    requires n <= |db.rows|
    ensures Extends(db, JudgeFirst(db, r, n).0)
  {
    if n > 0 {
      var before := JudgeFirst(db, r, n - 1).0;
      JudgeExtends(db, r, n - 1);
      ApplyExtends(before, VerdictEffect(n - 1, db.rows[n - 1], Judge(db.rows[n - 1], r), r));
      ExtendsTransitive(db, before, JudgeFirst(db, r, n).0);
    }
  }

  lemma {:induction false} OperateEachExtends(rx: Regex, db: Db, ids: seq<nat>, act: Act)
    ensures Extends(db, OperateEach(rx, db, ids, act).0)
  {
    if ids != [] {
      var before := OperateEach(rx, db, ids[..|ids| - 1], act).0;
      OperateEachExtends(rx, db, ids[..|ids| - 1], act);
      ExtendsTransitive(db, before, OperateEach(rx, db, ids, act).0);
    }
  }

  lemma PerformExtends(rx: Regex, db: Db, op: Op)
    ensures Extends(db, Perform(rx, db, op))
  {
    match op
    case Deliver(payload) => IngestExtends(db, payload);
    case Sweep(sweep) => ExpireExtends(db, sweep);
    case Align(reading) => JudgeExtends(db, reading, |db.rows|);
    case Decide(id, act) =>
    case DecideMany(ids, act) => OperateEachExtends(rx, db, Distinct(ids), act);
  }
}
