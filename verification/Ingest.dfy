/** Webhook ingestion, one delivered alert at a time. */
module Ingest {
  import opened Prelude
  import opened AlertModel

  datatype Incoming = Incoming(
    source: string,
    fingerprint: string,
    status: Status,
    labels: Labels,
    annotations: Labels,
    startsAt: int,
    endsAt: Option<int>,
    receivedAt: int)

  /** The row with this identity, if there is one. */
  function FindRow(rows: seq<Row>, source: string, fingerprint: string): (r: Option<nat>)
    ensures r.Some? ==>
              && r.value < |rows|
              && rows[r.value].source == source && rows[r.value].fingerprint == fingerprint
    ensures r.None? ==> forall i | 0 <= i < |rows| :: rows[i].source != source || rows[i].fingerprint != fingerprint
  {
    if rows == [] then None
    else
      var last := |rows| - 1;
      if rows[last].source == source && rows[last].fingerprint == fingerprint then Some(last)
      else FindRow(rows[..last], source, fingerprint)
  }

  /** What makes a delivery news: `alertMateriallyChanged` compares exactly these three. */
  predicate SameMaterial(row: Row, a: Incoming)
  {
    row.status == a.status && row.labels == a.labels && row.annotations == a.annotations
  }

  function NewRow(a: Incoming): (row: Row)
  {
    Row(a.source, a.fingerprint, a.status, a.labels, a.annotations,
        Times(a.startsAt, a.endsAt, a.receivedAt, a.receivedAt, None, 0),
        1, OFF, NOBODY, OFF, false, [])
  }

  predicate ComesBack(row: Row, a: Incoming)
  {
    row.status == Resolved && a.status == Firing
  }

  /** The row after a delivery: a new occurrence forgets acknowledgement and owner, and a firing
      delivery that changes anything undoes a close. */
  function DeliveredRow(row: Row, a: Incoming): (r: Row)
  {
    row.(
      status := a.status, labels := a.labels, annotations := a.annotations,
      times := row.times.(startsAt := a.startsAt, endsAt := a.endsAt, lastSeen := a.receivedAt,
                          repeatCount := row.times.repeatCount + 1),
      occurrence := if ComesBack(row, a) then row.occurrence + 1 else row.occurrence,
      acknowledged := if ComesBack(row, a) then OFF else row.acknowledged,
      owner := if ComesBack(row, a) then NOBODY else row.owner,
      closed := if !SameMaterial(row, a) && a.status == Firing && row.closed.on then OFF else row.closed)
  }

  function DeliveryKind(row: Row, a: Incoming): (k: EntryKind)
  {
    if ComesBack(row, a) then Reopened
    else if a.status == Resolved && row.status != Resolved then ResolvedBySource
    else Updated
  }

  function IngestEffect(rows: seq<Row>, a: Incoming): (eff: Effect)
    ensures eff.id <= |rows|
  {
    match FindRow(rows, a.source, a.fingerprint)
    case None =>
      var row := NewRow(a);
      Effect(|rows|, row,
             Some(Entry(|rows|, 1, Created, a.status, "", "", a.receivedAt)),
             Some(MakeEvent(EventCreated, |rows|, row, a.receivedAt, None)),
             None)
    case Some(id) =>
      var row := DeliveredRow(rows[id], a);
      var kind := DeliveryKind(rows[id], a);
      if SameMaterial(rows[id], a) then Effect(id, row, None, None, None)
      else
        Effect(id, row,
               Some(Entry(id, row.occurrence, kind, a.status, "", "", a.receivedAt)),
               Some(MakeEvent(if kind.ResolvedBySource? then EventResolved else EventUpdated,
                              id, row, a.receivedAt, Some(rows[id].labels))),
               None)
  }

  function IngestOne(db: Db, a: Incoming): (r: Db)
  {
    Apply(db, IngestEffect(db.rows, a))
  }

  /** A payload is delivered front to back inside one transaction. */
  function IngestAll(db: Db, payload: seq<Incoming>): (r: Db)
  {
    if payload == [] then db
    else IngestOne(IngestAll(db, payload[..|payload| - 1]), payload[|payload| - 1])
  }

  // ---------------------------------------------------------------- the invariant

  /** A delivery on a stored alert: the entry it writes replays to exactly the row it leaves. */
  lemma DeliveryGood(row: Row, a: Incoming, eff: Effect)
    requires MarksComplete(row)
    requires eff.row == DeliveredRow(row, a)
    requires SameMaterial(row, a) ==> eff.entry.None? && eff.event.None?
    requires !SameMaterial(row, a) ==>
               && eff.entry == Some(Entry(eff.id, eff.row.occurrence, DeliveryKind(row, a), a.status, "", "",
                                          a.receivedAt))
               && eff.event.Some? && eff.event.value.alert == eff.id
               && eff.event.value.labels == a.labels && eff.event.value.previous == Some(row.labels)
    ensures MarksComplete(eff.row) && GoodEntry(row, eff) && GoodEvent(row, eff)
  {
  }

  lemma IngestEffectGood(db: Db, a: Incoming)
    requires Inv(db)
    ensures Good(db, IngestEffect(db.rows, a))
  {
    var eff := IngestEffect(db.rows, a);
    if eff.id < |db.rows| {
      assert RowAgrees(db, eff.id);
      DeliveryGood(db.rows[eff.id], a, eff);
    } else {
      assert GoodCreation(db, eff);
    }
  }

  lemma {:induction false} IngestKeepsInv(db: Db, payload: seq<Incoming>)
    requires Inv(db)
    ensures Inv(IngestAll(db, payload))
  {
    if payload != [] {
      var before := IngestAll(db, payload[..|payload| - 1]);
      var a := payload[|payload| - 1];
      IngestKeepsInv(db, payload[..|payload| - 1]);
      IngestEffectGood(before, a);
      ApplyKeepsInv(before, IngestEffect(before.rows, a));
    }
  }

  // ---------------------------------------------------------------- what a delivery leaves behind

  /** Identities are unique, so the row with this one is the row found. */
  lemma FoundIsIt(rows: seq<Row>, source: string, fingerprint: string, id: nat)
    requires IdentitiesUnique(rows) && id < |rows| && rows[id].source == source && rows[id].fingerprint == fingerprint
    ensures FindRow(rows, source, fingerprint) == Some(id)
  {
  }

  /** The stored row takes over all the delivery says, times included. A firing delivery after a resolution
      starts a new occurrence without marks, and firing news undoes a close. */
  lemma DeliveryRefreshes(db: Db, a: Incoming, id: nat)
    requires IdentitiesUnique(db.rows) && id < |db.rows|
    requires db.rows[id].source == a.source && db.rows[id].fingerprint == a.fingerprint
    ensures var row, after := db.rows[id], IngestOne(db, a).rows;
            var back := row.status == Resolved && a.status == Firing;
            var news := row.status != a.status || row.labels != a.labels || row.annotations != a.annotations;
            && |after| == |db.rows| && (forall i | 0 <= i < |after| && i != id :: after[i] == db.rows[i])
            && after[id] == Row(
                 row.source, row.fingerprint, a.status, a.labels, a.annotations,
                 Times(a.startsAt, a.endsAt, row.times.firstSeen, a.receivedAt, row.times.reconciledAt,
                       row.times.repeatCount + 1),
                 if back then row.occurrence + 1 else row.occurrence,
                 if back then OFF else row.acknowledged,
                 if back then NOBODY else row.owner,
                 if news && a.status == Firing && row.closed.on then OFF else row.closed,
                 row.suppressed, row.silencedBy)
  {
    FoundIsIt(db.rows, a.source, a.fingerprint, id);
  }

  /** News is written down under what it was: a reopening, a resolution or an update. Only a resolution is
      announced as one. */
  lemma DeliveryWrites(db: Db, a: Incoming, id: nat)
    requires IdentitiesUnique(db.rows) && id < |db.rows|
    requires db.rows[id].source == a.source && db.rows[id].fingerprint == a.fingerprint
    ensures var row, after := db.rows[id], IngestOne(db, a);
            var news := row.status != a.status || row.labels != a.labels || row.annotations != a.annotations;
            var ended := row.status != Resolved && a.status == Resolved;
            var kind := if row.status == Resolved && a.status == Firing then Reopened
                        else if ended then ResolvedBySource else Updated;
            && after.notes == db.notes
            && (!news ==> after.history == db.history && after.log == db.log)
            && (news ==>
                  && after.history ==
                     db.history + [Entry(id, after.rows[id].occurrence, kind, a.status, "", "", a.receivedAt)]
                  && |after.log| == |db.log| + 1 && after.log[..|db.log|] == db.log
                  && after.log[|db.log|].id == |db.log| + 1
                  && Describes(after.log[|db.log|], if ended then EventResolved else EventUpdated, id, after.rows[id],
                               a.receivedAt, Some(row.labels)))
  {
    FoundIsIt(db.rows, a.source, a.fingerprint, id);
  }

  /** An alert never seen becomes a first occurrence without marks, seen just now. */
  lemma DeliveryCreates(db: Db, a: Incoming)
    requires forall i | 0 <= i < |db.rows| :: db.rows[i].source != a.source || db.rows[i].fingerprint != a.fingerprint
    ensures var id, after := |db.rows|, IngestOne(db, a);
            && after.rows == db.rows + [Row(
                 a.source, a.fingerprint, a.status, a.labels, a.annotations,
                 Times(a.startsAt, a.endsAt, a.receivedAt, a.receivedAt, None, 0),
                 1, Flag(false, None, ""), Owner("", None, ""), Flag(false, None, ""), false, [])]
            && after.history == db.history + [Entry(id, 1, Created, a.status, "", "", a.receivedAt)]
            && |after.log| == |db.log| + 1 && after.log[..|db.log|] == db.log && after.notes == db.notes
            && after.log[|db.log|].id == |db.log| + 1
            && Describes(after.log[|db.log|], EventCreated, id, after.rows[id], a.receivedAt, None)
  {
  }

  predicate SameIdentity(a: Incoming, b: Incoming)
  {
    a.source == b.source && a.fingerprint == b.fingerprint
  }

  /** Stored as this delivery left it. */
  ghost predicate StoredAs(rows: seq<Row>, a: Incoming)
  {
    exists id | 0 <= id < |rows| ::
      && rows[id].source == a.source && rows[id].fingerprint == a.fingerprint
      && rows[id].status == a.status && rows[id].labels == a.labels && rows[id].annotations == a.annotations
      && rows[id].times.startsAt == a.startsAt && rows[id].times.endsAt == a.endsAt
      && rows[id].times.lastSeen == a.receivedAt
  }

  lemma OneIsStored(db: Db, a: Incoming)
    requires Inv(db)
    ensures StoredAs(IngestOne(db, a).rows, a)
  {
    var found := FindRow(db.rows, a.source, a.fingerprint);
    if found.Some? {
      DeliveryRefreshes(db, a, found.value);
      assert IngestOne(db, a).rows[found.value].source == a.source;
    } else {
      DeliveryCreates(db, a);
      assert IngestOne(db, a).rows[|db.rows|].source == a.source;
    }
  }

  lemma OthersStayStored(db: Db, a: Incoming, b: Incoming)
    requires Inv(db) && StoredAs(db.rows, a) && !SameIdentity(a, b)
    ensures StoredAs(IngestOne(db, b).rows, a)
  {
    var id :| 0 <= id < |db.rows|
              && db.rows[id].source == a.source && db.rows[id].fingerprint == a.fingerprint
              && db.rows[id].status == a.status && db.rows[id].labels == a.labels
              && db.rows[id].annotations == a.annotations
              && db.rows[id].times.startsAt == a.startsAt && db.rows[id].times.endsAt == a.endsAt
              && db.rows[id].times.lastSeen == a.receivedAt;
    var found := FindRow(db.rows, b.source, b.fingerprint);
    if found.Some? {
      DeliveryRefreshes(db, b, found.value);
    } else {
      DeliveryCreates(db, b);
    }
    assert IngestOne(db, b).rows[id] == db.rows[id];
  }

  /** After a payload every alert in it is stored as its last delivery there left it, seen at its time. */
  lemma {:induction false} LastDeliveryStays(db: Db, payload: seq<Incoming>, k: nat)
    requires Inv(db) && k < |payload|
    requires forall i | k < i < |payload| :: !SameIdentity(payload[k], payload[i])
    ensures StoredAs(IngestAll(db, payload).rows, payload[k])
  {
    var front, last := payload[..|payload| - 1], payload[|payload| - 1];
    IngestKeepsInv(db, front);
    if k == |payload| - 1 {
      OneIsStored(IngestAll(db, front), last);
    } else {
      LastDeliveryStays(db, front, k);
      OthersStayStored(IngestAll(db, front), payload[k], last);
    }
  }

  /** The first event of a new alert. */
  function Arrival(a: Incoming, id: nat): (e: StreamEvent)
  {
    MakeEvent(EventCreated, id, NewRow(a), a.receivedAt, None)
  }

  /** An alert not stored before becomes a row of its own, announced as created. */
  lemma NewlyDelivered(db: Db, a: Incoming)
    requires FindRow(db.rows, a.source, a.fingerprint).None?
    ensures IngestAll(db, [a]).rows == db.rows + [NewRow(a)]
    ensures IngestAll(db, [a]).log == db.log + [Arrival(a, |db.rows|).(id := |db.log| + 1)]
  {
    assert [a][..0] == [];
    assert IngestAll(db, [a]) == IngestOne(db, a);
  }

  // ---------------------------------------------------------------- redelivery

  /** The database already holds this delivery, so it would be a mere repeat. */
  ghost predicate Held(rows: seq<Row>, a: Incoming)
  {
    var found := FindRow(rows, a.source, a.fingerprint);
    found.Some? && SameMaterial(rows[found.value], a)
  }

  predicate SameNews(a: Incoming, b: Incoming)
  {
    a.status == b.status && a.labels == b.labels && a.annotations == b.annotations
  }

  /** A caller can check this on the payload alone: wherever an alert appears twice it says the same. */
  ghost predicate SaysOneThing(payload: seq<Incoming>)
  {
    forall i, j | 0 <= i < j < |payload| && SameIdentity(payload[i], payload[j]) :: SameNews(payload[i], payload[j])
  }

  /** Everything about a row except the bookkeeping of deliveries. */
  predicate Undisturbed(a: Row, b: Row)
  {
    b == a.(times := b.times)
  }

  ghost predicate AllUndisturbed(a: seq<Row>, b: seq<Row>)
  {
    |a| == |b| && forall i | 0 <= i < |a| :: Undisturbed(a[i], b[i])
  }

  /** Rows are found by identity, so a lookup only depends on identities. */
  lemma {:induction false} FindDependsOnIdentity(a: seq<Row>, b: seq<Row>, source: string, fingerprint: string)
    requires |a| == |b|
    requires forall i | 0 <= i < |a| :: a[i].source == b[i].source && a[i].fingerprint == b[i].fingerprint
    ensures FindRow(a, source, fingerprint) == FindRow(b, source, fingerprint)
  {
    if a != [] {
      FindDependsOnIdentity(a[..|a| - 1], b[..|b| - 1], source, fingerprint);
    }
  }

  /** Nothing was written and nothing but delivery bookkeeping moved. */
  ghost predicate Quiet(a: Db, b: Db)
  {
    a.history == b.history && a.log == b.log && AllUndisturbed(a.rows, b.rows)
  }

  lemma QuietTransitive(a: Db, b: Db, c: Db)
    requires Quiet(a, b) && Quiet(b, c)
    ensures Quiet(a, c)
  {
  }

  lemma OneIsSilentExactly(db: Db, a: Incoming)
    ensures |IngestOne(db, a).history| == |db.history| + (if Held(db.rows, a) then 0 else 1)
    ensures Held(db.rows, a) ==> Quiet(db, IngestOne(db, a))
  {
  }

  lemma UndisturbedKeepsHeld(a: seq<Row>, b: seq<Row>, x: Incoming)
    requires AllUndisturbed(a, b)
    ensures Held(a, x) <==> Held(b, x)
  {
    FindDependsOnIdentity(a, b, x.source, x.fingerprint);
  }

  ghost predicate AllHeld(rows: seq<Row>, payload: seq<Incoming>)
  {
    forall i | 0 <= i < |payload| :: Held(rows, payload[i])
  }

  lemma AllHeldSplits(rows: seq<Row>, front: seq<Incoming>, a: Incoming)
    ensures AllHeld(rows, front + [a]) <==> AllHeld(rows, front) && Held(rows, a)
  {
    var payload := front + [a];
    assert payload[|front|] == a;
    assert forall i | 0 <= i < |front| :: payload[i] == front[i];
  }

  /** A whole payload writes nothing exactly when every delivery in it is already held. */
  lemma {:induction false} SilentExactly(db: Db, payload: seq<Incoming>)
    ensures |IngestAll(db, payload).history| >= |db.history|
    ensures |IngestAll(db, payload).history| == |db.history| <==> AllHeld(db.rows, payload)
    ensures AllHeld(db.rows, payload) ==> Quiet(db, IngestAll(db, payload))
  {
    if payload != [] {
      var front := payload[..|payload| - 1];
      var a := payload[|payload| - 1];
      var before := IngestAll(db, front);
      SilentExactly(db, front);
      OneIsSilentExactly(before, a);
      assert payload == front + [a];
      AllHeldSplits(db.rows, front, a);
      if AllHeld(db.rows, front) {
        UndisturbedKeepsHeld(db.rows, before.rows, a);
        if Held(before.rows, a) {
          QuietTransitive(db, before, IngestOne(before, a));
        }
      }
    }
  }

  lemma DeliveryIsHeld(db: Db, a: Incoming)
    ensures Held(IngestOne(db, a).rows, a)
  {
    var eff := IngestEffect(db.rows, a);
    if eff.id < |db.rows| {
      FindDependsOnIdentity(db.rows, IngestOne(db, a).rows, a.source, a.fingerprint);
    }
  }

  lemma DeliveryKeepsHeld(db: Db, a: Incoming, b: Incoming)
    requires Held(db.rows, b) && (!SameIdentity(a, b) || SameNews(a, b))
    ensures Held(IngestOne(db, a).rows, b)
  {
    var eff := IngestEffect(db.rows, a);
    var after := IngestOne(db, a).rows;
    if eff.id < |db.rows| {
      FindDependsOnIdentity(db.rows, after, b.source, b.fingerprint);
    } else {
      assert after[..|db.rows|] == db.rows;
    }
  }

  lemma {:induction false} PayloadIsHeld(db: Db, payload: seq<Incoming>, i: nat)
    requires SaysOneThing(payload) && i < |payload|
    ensures Held(IngestAll(db, payload).rows, payload[i])
  {
    var front := payload[..|payload| - 1];
    var before := IngestAll(db, front);
    var a := payload[|payload| - 1];
    if i < |front| {
      assert SaysOneThing(front);
      PayloadIsHeld(db, front, i);
      DeliveryKeepsHeld(before, a, payload[i]);
    } else {
      DeliveryIsHeld(before, a);
    }
  }

  /** Delivering the same payload again is silent exactly when the payload says one thing per alert;
      a payload of distinct fingerprints always does. */
  lemma RedeliveryIsSilentExactly(db: Db, payload: seq<Incoming>)
    ensures var once := IngestAll(db, payload);
            var twice := IngestAll(once, payload);
            (twice.history == once.history && twice.log == once.log) <==> SaysOneThing(payload)
  {
    var once := IngestAll(db, payload);
    SilentExactly(once, payload);
    if SaysOneThing(payload) {
      forall i | 0 <= i < |payload| ensures Held(once.rows, payload[i]) {
        PayloadIsHeld(db, payload, i);
      }
    }
  }

  /** ... and then it disturbs nothing but delivery bookkeeping: no status, occurrence or operator field. */
  lemma RedeliveryDisturbsNothing(db: Db, payload: seq<Incoming>)
    requires SaysOneThing(payload)
    ensures AllUndisturbed(IngestAll(db, payload).rows, IngestAll(IngestAll(db, payload), payload).rows)
  {
    RedeliveryIsSilentExactly(db, payload);
    SilentExactly(IngestAll(db, payload), payload);
  }

  /** A payload that first fires an alert and then resolves it speaks up every time it is delivered. */
  lemma RedeliveryCanSpeak(db: Db, a: Incoming)
    requires a.status == Firing
    ensures var payload := [a, a.(status := Resolved)];
            var once := IngestAll(db, payload);
            var twice := IngestAll(once, payload);
            twice.history != once.history || twice.log != once.log
  {
    var payload := [a, a.(status := Resolved)];
    assert SameIdentity(payload[0], payload[1]) && !SameNews(payload[0], payload[1]);
    RedeliveryIsSilentExactly(db, payload);
  }
}
