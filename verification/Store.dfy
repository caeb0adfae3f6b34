/**
  The store as the server runs it: tables updated statement by statement inside each
  transaction. Every method is tied to the function of the old tables that the other
  modules prove things about.
 */
module Store {
  import opened Prelude
  import opened AlertModel
  import opened Authorization
  import opened Ingest
  import opened Expiry
  import opened Reconcile
  import opened Operator

  datatype Failure = ErrNotFound | ErrInvalid

  class AlertStore {
    var rows: seq<Row>
    var history: seq<Entry>
    var log: seq<StreamEvent>
    var notes: seq<Note>

    function Tables(): (db: Db)
      reads this
    {
      Db(rows, history, log, notes)
    }

    constructor ()
      ensures Tables() == EMPTY_DB
    {
      rows, history, log, notes := [], [], [], [];
    }

    method InsertStreamEvent(kind: EventKind, id: nat, at: int, previous: Option<Labels>)
      requires id < |rows|
      modifies this`log
      ensures log == old(log) + [MakeEvent(kind, id, rows[id], at, previous).(id := |old(log)| + 1)]
    {
      var row := rows[id];
      var severity := LabelOrEmpty(row.labels, "severity");
      if severity == "" {
        severity := "warning";
      }
      var alertName := LabelOrEmpty(row.labels, "alertname");
      if alertName == "" {
        alertName := row.fingerprint;
      }
      log := log + [StreamEvent(|log| + 1, kind, id, at, severity, alertName, LabelOrEmpty(row.annotations, "summary"),
                                row.source,
                                LabelOrEmpty(row.labels, "team"), row.labels, previous)];
    }

    method InsertHistory(entry: Entry)
      modifies this`history
      ensures history == old(history) + [entry]
    {
      history := history + [entry];
    }

    // -------------------------------------------------------------- ingestion

    method CreateAlert(a: Incoming)
      requires FindRow(rows, a.source, a.fingerprint).None?
      modifies this
      ensures Tables() == IngestOne(old(Tables()), a)
    {
      var id := |rows|;
      rows := rows + [Row(
        a.source, a.fingerprint, a.status, a.labels, a.annotations,
        Times(a.startsAt, a.endsAt, a.receivedAt, a.receivedAt, None, 0),
        1, OFF, NOBODY, OFF, false, [])];
      InsertStreamEvent(EventCreated, id, a.receivedAt, None);
      InsertHistory(Entry(id, 1, Created, a.status, "", "", a.receivedAt));
    }

    /** The UPDATE of a stored alert: a firing delivery after a resolved one starts a new occurrence. */
    method RefreshAlert(id: nat, a: Incoming) returns (occurrence: nat, kind: EntryKind)
      requires id < |rows|
      modifies this`rows
      ensures |rows| == |old(rows)| && rows == old(rows)[id := rows[id]]
      ensures rows[id] == DeliveredRow(old(rows[id]), a).(closed := old(rows[id]).closed)
      ensures occurrence == rows[id].occurrence && kind == DeliveryKind(old(rows[id]), a)
    {
      var previous := rows[id];
      occurrence := previous.occurrence;
      kind := Updated;
      var back := previous.status == Resolved && a.status == Firing;
      if back {
        occurrence := occurrence + 1;
        kind := Reopened;
      } else if a.status == Resolved && previous.status != Resolved {
        kind := ResolvedBySource;
      }
      rows := rows[id := previous.(
        status := a.status, labels := a.labels, annotations := a.annotations,
        times := previous.times.(startsAt := a.startsAt, endsAt := a.endsAt, lastSeen := a.receivedAt,
                                 repeatCount := previous.times.repeatCount + 1),
        occurrence := occurrence,
        acknowledged := if back then OFF else previous.acknowledged,
        owner := if back then NOBODY else previous.owner)];
    }

    /** A delivery that changes something: it undoes a close if it is firing, and it is news. */
    method RecordDelivery(id: nat, a: Incoming, previous: Row, occurrence: nat, kind: EntryKind)
      requires id < |rows| && rows[id] == DeliveredRow(previous, a).(closed := previous.closed)
               && !SameMaterial(previous, a)
      requires occurrence == rows[id].occurrence && kind == DeliveryKind(previous, a)
      modifies this
      ensures rows == old(rows)[id := DeliveredRow(previous, a)] && notes == old(notes)
      ensures history == old(history) + [Entry(id, occurrence, kind, a.status, "", "", a.receivedAt)]
      ensures log == old(log) + [MakeEvent(if kind.ResolvedBySource? then EventResolved else EventUpdated, id, rows[id],
                                           a.receivedAt, Some(previous.labels)).(id := |old(log)| + 1)]
    {
      if a.status == Firing && rows[id].closed.on {
        rows := rows[id := rows[id].(closed := OFF)];
      }
      assert rows[id] == DeliveredRow(previous, a);
      assert rows == old(rows)[id := DeliveredRow(previous, a)];
      InsertStreamEvent(if kind.ResolvedBySource? then EventResolved
                        else EventUpdated, id, a.receivedAt, Some(previous.labels));
      InsertHistory(Entry(id, occurrence, kind, a.status, "", "", a.receivedAt));
    }

    method IngestAlert(a: Incoming)
      modifies this
      ensures Tables() == IngestOne(old(Tables()), a)
    {
      var found := FindRow(rows, a.source, a.fingerprint);
      if found.None? {
        CreateAlert(a);
      } else {
        var id := found.value;
        var previous := rows[id];
        var occurrence, kind := RefreshAlert(id, a);
        if previous.status != a.status || previous.labels != a.labels || previous.annotations != a.annotations {
          RecordDelivery(id, a, previous, occurrence, kind);
        }
        assert rows == old(rows)[id := DeliveredRow(previous, a)];
      }
    }

    method Ingest(payload: seq<Incoming>)
      modifies this
      ensures Tables() == IngestAll(old(Tables()), payload)
    {
      var i := 0;
      while i < |payload|
        invariant 0 <= i <= |payload|
        invariant Tables() == IngestAll(old(Tables()), payload[..i])
      {
        IngestAlert(payload[i]);
        assert payload[..i + 1][..i] == payload[..i];
        i := i + 1;
      }
      assert payload[..i] == payload;
    }

    // -------------------------------------------------------------- expiry

    method ExpireAlert(id: nat, now: int)
      requires id < |rows|
      modifies this
      ensures Tables() == Apply(old(Tables()), ExpireEffect(id, old(rows[id]), now))
    {
      var row := rows[id];
      var ended := if row.times.endsAt.Some? then row.times.endsAt else Some(now);
      rows := rows[id := row.(status := Expired, times := row.times.(endsAt := ended))];
      InsertStreamEvent(EventResolved, id, now, None);
      InsertHistory(Entry(id, row.occurrence, ExpiredBySweep, Expired, "", "", now));
    }

    method ExpireEach(ids: seq<nat>, now: int) returns (expired: nat)
      requires Indices(rows, ids)
      modifies this
      ensures Tables() == ExpireIds(old(Tables()), ids, now)
      ensures expired == |ids|
    {
      var i := 0;
      while i < |ids|
        invariant 0 <= i <= |ids| && |rows| == |old(rows)|
        invariant Tables() == ExpireIds(old(Tables()), ids[..i], now)
      {
        assert ids[..i + 1][..i] == ids[..i];
        ExpireAlert(ids[i], now);
        i := i + 1;
      }
      assert ids[..i] == ids;
      expired := |ids|;
    }

    method ExpireStaleBatch(sweep: Sweep) returns (expired: nat)
      modifies this
      ensures Tables() == ExpireIds(old(Tables()), Batch(old(rows), sweep), sweep.now)
      ensures expired == |Batch(old(rows), sweep)|
    {
      var ids := Batch(rows, sweep);
      expired := ExpireEach(ids, sweep.now);
    }

    method ExpireLoop(sweep: Sweep) returns (total: nat)
      modifies this
      ensures (Tables(), total) == ExpireStale(old(Tables()), sweep)
    {
      total := 0;
      ghost var want := ExpireStale(Tables(), sweep);
      while true
        invariant want.0 == ExpireStale(Tables(), sweep).0
        invariant want.1 == total + ExpireStale(Tables(), sweep).1
        decreases |StaleSet(rows, sweep)|
      {
        ExpireUnfolds(Tables(), sweep);
        var expired := ExpireStaleBatch(sweep);
        total := total + expired;
        if expired < BATCH {
          return;
        }
      }
    }

    /** Batches until one comes back short; a negative default leaves the tables alone. */
    method ExpireStaleAlerts(sweep: Sweep) returns (total: nat, failure: Option<Failure>)
      modifies this
      ensures sweep.fallback < 0 ==> failure == Some(ErrInvalid) && total == 0 && Tables() == old(Tables())
      ensures sweep.fallback >= 0 ==> failure == None && (Tables(), total) == ExpireStale(old(Tables()), sweep)
    {
      total, failure := 0, None;
      if sweep.fallback < 0 {
        return 0, Some(ErrInvalid);
      }
      total := ExpireLoop(sweep);
    }

    // -------------------------------------------------------------- reconciliation

    /** A stored alert that is firing: declared missing, gone from the live list, or still there. */
    method ReconcileFiring(id: nat, r: Reading, tally: Tally) returns (out: Tally)
      requires id < |rows| && rows[id].source == r.source && rows[id].status == Firing
      modifies this
      ensures Tables() == Apply(old(Tables()), VerdictEffect(id, old(rows[id]), Judge(old(rows[id]), r), r))
      ensures out == Counted(tally, old(rows[id]), Judge(old(rows[id]), r))
    {
      out := tally;
      var item := rows[id];
      assert rows[id := item] == rows;
      if item.fingerprint in r.missing {
        var ended := if item.times.endsAt.Some? then item.times.endsAt else Some(r.now);
        rows := rows[id := item.(status := Resolved, times := item.times.(endsAt := ended), suppressed := false,
                                 silencedBy := [])];
        InsertStreamEvent(EventResolved, id, r.now, None);
        InsertHistory(Entry(id, item.occurrence, Reconciled, Resolved, "", "", r.now));
        out := tally.(resolved := tally.resolved + 1);
        return;
      }
      if item.fingerprint !in r.live {
        if r.activeSilences.None? || !item.suppressed || |item.silencedBy| == 0 {
          return;
        }
        if AnySilenceActive(item.silencedBy, r.activeSilences.value) {
          return;
        }
        rows := rows[id := item.(suppressed := false, silencedBy := [])];
        InsertStreamEvent(EventUpdated, id, r.now, None);
        out := tally.(released := tally.released + 1);
        return;
      }
      var current := r.live[item.fingerprint];
      var stateChanged := current.suppressed != item.suppressed;
      if !stateChanged && current.silencedBy == item.silencedBy {
        return;
      }
      rows := rows[id := item.(suppressed := current.suppressed, silencedBy := current.silencedBy)];
      if !stateChanged {
        return;
      }
      InsertStreamEvent(EventUpdated, id, r.now, None);
      if current.suppressed {
        out := tally.(suppressed := tally.suppressed + 1);
      } else {
        out := tally.(released := tally.released + 1);
      }
    }

    /** One stored alert against the reading, with the branches in the order the pass takes them. */
    method ReconcileRow(id: nat, r: Reading, tally: Tally) returns (out: Tally)
      requires id < |rows|
      modifies this
      ensures Tables() == Apply(old(Tables()), VerdictEffect(id, old(rows[id]), Judge(old(rows[id]), r), r))
      ensures out == Counted(tally, old(rows[id]), Judge(old(rows[id]), r))
    {
      out := tally;
      var item := rows[id];
      ghost var db := Tables();
      assert rows[id := item] == rows;
      if item.source != r.source || item.status == Resolved {
        return;
      }
      if item.status == Expired {
        if item.fingerprint !in r.live {
          return;
        }
        var current := r.live[item.fingerprint];
        rows := rows[id := item.(status := Firing, times := item.times.(endsAt := None),
                                 suppressed := current.suppressed, silencedBy := current.silencedBy)];
        InsertStreamEvent(EventUpdated, id, r.now, None);
        InsertHistory(Entry(id, item.occurrence, Revived, Firing, "", "", r.now));
        out := tally.(revived := tally.revived + 1);
        return;
      }
      out := ReconcileFiring(id, r, tally);
    }

    method ReconcileSource(source: string, live: seq<LiveAlert>, missing: set<string>,
                           activeSilences: Option<set<string>>, now: int)
      returns (tally: Tally)
      modifies this
      ensures (Tables(), tally) ==
              Reconcile.ReconcileSource(old(Tables()), Reading(source, LiveMap(live), missing, activeSilences, now))
    {
      var r := Reading(source, LiveMap(live), missing, activeSilences, now);
      tally := NOTHING;
      ghost var db := Tables();
      var i := 0;
      while i < |rows|
        invariant 0 <= i <= |rows| && |rows| == |db.rows|
        invariant (Tables(), tally) == JudgeFirst(db, r, i)
      {
        JudgeFirstRows(db, r, i, i);
        tally := ReconcileRow(i, r, tally);
        i := i + 1;
      }
      rows := StampAll(rows, r);
    }

    // -------------------------------------------------------------- operators

    /** The part the three single-alert actions share once the alert is locked: record and announce. */
    method Record(id: nat, act: Act)
      requires id < |rows|
      modifies this`history, this`log
      ensures history == old(history) + [Entry(id, rows[id].occurrence, ChangeKind(act.change), rows[id].status,
                                               OperatorName(act.principal), ChangeMessage(act.change), act.now)]
      ensures log == old(log) + [MakeEvent(ChangeEvent(act.change), id, rows[id], act.now, None).(id := |old(log)| + 1)]
    {
      InsertHistory(Entry(id, rows[id].occurrence, ChangeKind(act.change), rows[id].status, OperatorName(act.principal),
                          ChangeMessage(act.change), act.now));
      InsertStreamEvent(ChangeEvent(act.change), id, act.now, None);
    }

    method AcknowledgeAlert(rx: Regex, p: Principal, id: nat, on: bool, now: int) returns (failure: Option<Failure>)
      modifies this
      ensures var r := Operate(rx, old(Tables()), id, Act(p, Acknowledge(on), now));
              Tables() == r.0 && failure == (if r.1.NotFound? then Some(ErrNotFound) else None)
    {
      if id >= |rows| {
        return Some(ErrNotFound);
      }
      var allowed := CanOperateLabels(rx, p, rows[id].labels);
      if !allowed {
        return Some(ErrNotFound);
      }
      if rows[id].acknowledged.on == on {
        return None;
      }
      if on {
        rows := rows[id := rows[id].(acknowledged := Flag(true, Some(now), OperatorName(p)))];
      } else {
        rows := rows[id := rows[id].(acknowledged := OFF)];
      }
      Record(id, Act(p, Acknowledge(on), now));
      return None;
    }

    method CloseAlert(rx: Regex, p: Principal, id: nat, on: bool, now: int) returns (failure: Option<Failure>)
      modifies this
      ensures var r := Operate(rx, old(Tables()), id, Act(p, Close(on), now));
              Tables() == r.0 && failure == (if r.1.NotFound? then Some(ErrNotFound) else None)
    {
      if id >= |rows| {
        return Some(ErrNotFound);
      }
      var allowed := CanOperateLabels(rx, p, rows[id].labels);
      if !allowed {
        return Some(ErrNotFound);
      }
      if rows[id].closed.on == on {
        return None;
      }
      if on {
        rows := rows[id := rows[id].(closed := Flag(true, Some(now), OperatorName(p)))];
      } else {
        rows := rows[id := rows[id].(closed := OFF)];
      }
      Record(id, Act(p, Close(on), now));
      return None;
    }

    /** The transaction of an assignment, for an owner already found valid. */
    method SetOwner(rx: Regex, p: Principal, id: nat, owner: string, now: int) returns (failure: Option<Failure>)
      modifies this
      ensures var r := Operate(rx, old(Tables()), id, Act(p, Assign(owner), now));
              Tables() == r.0 && failure == (if r.1.NotFound? then Some(ErrNotFound) else None)
    {
      if id >= |rows| {
        return Some(ErrNotFound);
      }
      var allowed := CanOperateLabels(rx, p, rows[id].labels);
      if !allowed {
        return Some(ErrNotFound);
      }
      if rows[id].owner.name == owner {
        return None;
      }
      if owner == "" {
        rows := rows[id := rows[id].(owner := NOBODY)];
      } else {
        rows := rows[id := rows[id].(owner := Owner(owner, Some(now), OperatorName(p)))];
      }
      Record(id, Act(p, Assign(owner), now));
      return None;
    }

    method AssignAlert(rx: Regex, p: Principal, id: nat, raw: string, now: int) returns (failure: Option<Failure>)
      modifies this
      ensures var owner := ValidAssignee(raw);
              if !CanOperate(p) then failure == Some(ErrNotFound) && Tables() == old(Tables())
              else if owner.None? then failure == Some(ErrInvalid) && Tables() == old(Tables())
              else
                var r := Operate(rx, old(Tables()), id, Act(p, Assign(owner.value), now));
                Tables() == r.0 && failure == (if r.1.NotFound? then Some(ErrNotFound) else None)
    {
      if !CanOperate(p) {
        return Some(ErrNotFound);
      }
      var valid := ValidAssignee(raw);
      if valid.None? {
        return Some(ErrInvalid);
      }
      failure := SetOwner(rx, p, id, valid.value, now);
    }

    /** The body of the bulk loop. */
    method ChangeOne(rx: Regex, id: nat, act: Act) returns (outcome: Outcome)
      modifies this
      ensures (Tables(), outcome) == Operate(rx, old(Tables()), id, act)
    {
      if id >= |rows| {
        return NotFound;
      }
      var allowed := CanOperateLabels(rx, act.principal, rows[id].labels);
      if !allowed {
        return NotFound;
      }
      if AlreadySo(rows[id], act.change) {
        return Unchanged;
      }
      var row := rows[id];
      match act.change {
        case Acknowledge(on) => rows := rows[id := row.(acknowledged := MarkedFlag(on, act))];
        case Assign(owner) =>
          if owner == "" {
            rows := rows[id := row.(owner := NOBODY)];
          } else {
            rows := rows[id := row.(owner := Owner(owner, Some(act.now), OperatorName(act.principal)))];
          }
        case Close(on) => rows := rows[id := row.(closed := MarkedFlag(on, act))];
        case AddNote(body) => notes := notes + [Note(id, row.occurrence, OperatorName(act.principal), body, act.now)];
      }
      assert act.change.AddNote? ==> rows[id := row] == rows;
      Record(id, act);
      return Applied;
    }

    method ChangeEach(rx: Regex, ids: seq<nat>, act: Act) returns (outcomes: seq<(nat, Outcome)>)
      modifies this
      ensures (Tables(), outcomes) == OperateEach(rx, old(Tables()), Distinct(ids), act)
    {
      outcomes := [];
      ghost var db := Tables();
      var seen: set<nat> := {};
      var i := 0;
      while i < |ids|
        invariant 0 <= i <= |ids|
        invariant seen == Mentioned(ids[..i])
        invariant (Tables(), outcomes) == OperateEach(rx, db, Distinct(ids[..i]), act)
      {
        var id := ids[i];
        MentionedNext(ids, i);
        OperateEachNext(rx, db, ids, i, act, Tables(), outcomes);
        if id !in seen {
          var outcome := ChangeOne(rx, id, act);
          outcomes := outcomes + [(id, outcome)];
        }
        seen := seen + {id};
        i := i + 1;
      }
      assert ids[..i] == ids;
    }

    /** One change over a selection, in one transaction; a repeated id is one decision. */
    method ApplyToAlerts(rx: Regex, ids: seq<nat>, act: Act)
      returns (outcomes: seq<(nat, Outcome)>, failure: Option<Failure>)
      modifies this
      ensures failure == (if !CanOperate(act.principal) then Some(ErrNotFound)
                          else if |ids| == 0 || |ids| > 500 then Some(ErrInvalid) else None)
      ensures failure.Some? ==> outcomes == [] && Tables() == old(Tables())
      ensures failure.None? ==> (Tables(), outcomes) == OperateEach(rx, old(Tables()), Distinct(ids), act)
    {
      outcomes := [];
      if !CanOperate(act.principal) {
        return [], Some(ErrNotFound);
      }
      if |ids| == 0 || |ids| > MAX_BULK {
        return [], Some(ErrInvalid);
      }
      failure := None;
      outcomes := ChangeEach(rx, ids, act);
    }
  }
}
